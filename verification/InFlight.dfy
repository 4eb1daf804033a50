/**
 The list of in-flight tools that both live-status trackers keep: starts append, completions remove
 the oldest entry with their id in place. Declaratively, a start is still in the list exactly when
 fewer later starts bear its id than the balance of that id (`InListIff`).
 */
module InFlight {
  datatype Frame<T> = Frame(id: string, tag: T)

  function RemoveFirst<T>(fs: seq<Frame<T>>, id: string): seq<Frame<T>> {
    if fs == [] then []
    else if fs[0].id == id then fs[1..]
    else [fs[0]] + RemoveFirst(fs[1..], id)
  }

  /** The loop of removeActiveTool and codexPhaseItemCompleted: splice out the first match and stop. */
  method RemoveInPlace<T>(fs: seq<Frame<T>>, id: string) returns (r: seq<Frame<T>>)
    ensures r == RemoveFirst(fs, id)
  {
    for i := 0 to |fs|
      invariant forall k :: 0 <= k < i ==> fs[k].id != id
      invariant RemoveFirst(fs, id) == fs[..i] + RemoveFirst(fs[i..], id)
    {
      if fs[i].id == id {
        return fs[..i] + fs[i + 1..];
      }
      assert fs[i..] == [fs[i]] + fs[i + 1..];
      assert fs[..i + 1] == fs[..i] + [fs[i]];
    }
    r := fs;
  }

  function Count<T>(fs: seq<Frame<T>>, id: string): nat {
    if fs == [] then 0 else Count(fs[..|fs| - 1], id) + if fs[|fs| - 1].id == id then 1 else 0
  }

  // ---- the declarative list ----

  /** All starts in order, and for each id the clamped balance of starts and completions. */
  datatype Track<T> = Track(starts: seq<Frame<T>>, open: multiset<string>)

  function Empty<T>(): Track<T> {
    Track([], multiset{})
  }

  function Started<T>(t: Track<T>, f: Frame<T>): Track<T> {
    Track(t.starts + [f], t.open + multiset{f.id})
  }

  /** A completion without an id, or of an id that has none open, changes nothing. */
  function Ended<T>(t: Track<T>, id: string): Track<T> {
    if id == "" || id !in t.open then t else t.(open := t.open - multiset{id})
  }

  /** Of each id, the last `open[id]` starts, all in start order. */
  function Latest<T>(starts: seq<Frame<T>>, open: multiset<string>): seq<Frame<T>> {
    if starts == [] then []
    else
      var n := |starts| - 1;
      var f := starts[n];
      if f.id in open then Latest(starts[..n], open - multiset{f.id}) + [f] else Latest(starts[..n], open)
  }

  predicate Covered<T>(starts: seq<Frame<T>>, open: multiset<string>) {
    forall id <- open :: open[id] <= Count(starts, id)
  }

  ghost predicate Tracks<T>(fs: seq<Frame<T>>, t: Track<T>) {
    Covered(t.starts, t.open) && fs == Latest(t.starts, t.open)
  }

  lemma CoveredFront<T>(starts: seq<Frame<T>>, open: multiset<string>)
    requires starts != [] && Covered(starts, open)
    ensures var n := |starts| - 1;
            Covered(starts[..n], if starts[n].id in open then open - multiset{starts[n].id} else open)
  {
  }

  /** The list holds each id as often as its balance says. */
  lemma {:induction false} LatestCount<T>(starts: seq<Frame<T>>, open: multiset<string>, id: string)
    requires Covered(starts, open)
    ensures Count(Latest(starts, open), id) == open[id]
  {
    if starts == [] {
      assert id in open ==> open[id] <= Count(starts, id);
    } else {
      var n := |starts| - 1;
      var f := starts[n];
      CoveredFront(starts, open);
      if f.id in open {
        LatestCount(starts[..n], open - multiset{f.id}, id);
        CountPush(Latest(starts[..n], open - multiset{f.id}), f, id);
      } else {
        LatestCount(starts[..n], open, id);
      }
    }
  }

  lemma CountPush<T>(fs: seq<Frame<T>>, f: Frame<T>, id: string)
    ensures Count(fs + [f], id) == Count(fs, id) + if f.id == id then 1 else 0
  {
    assert (fs + [f])[..|fs|] == fs;
  }

  lemma {:induction false} RemoveFromFront<T>(fs: seq<Frame<T>>, f: Frame<T>, id: string)
    ensures RemoveFirst(fs + [f], id) ==
            if Count(fs, id) > 0 then RemoveFirst(fs, id) + [f]
            else if f.id == id then fs else fs + [f]
  {
    if fs == [] {
      assert [f][1..] == fs && fs + [f] == [f];
    } else {
      assert (fs + [f])[0] == fs[0] && (fs + [f])[1..] == fs[1..] + [f];
      CountCons(fs, id);
      if fs[0].id != id {
        RemoveFromFront(fs[1..], f, id);
        assert [fs[0]] + (RemoveFirst(fs[1..], id) + [f]) == ([fs[0]] + RemoveFirst(fs[1..], id)) + [f];
        assert [fs[0]] + (fs[1..] + [f]) == fs + [f];
        assert [fs[0]] + fs[1..] == fs;
      }
    }
  }

  lemma {:induction false} CountCons<T>(fs: seq<Frame<T>>, id: string)
    requires fs != []
    ensures Count(fs, id) == Count(fs[1..], id) + if fs[0].id == id then 1 else 0
  {
    var n := |fs| - 1;
    if n > 0 {
      CountCons(fs[..n], id);
      assert fs[..n][1..] == fs[1..][..n - 1];
    }
  }

  lemma {:induction false} RemoveAbsent<T>(fs: seq<Frame<T>>, id: string)
    requires Count(fs, id) == 0
    ensures RemoveFirst(fs, id) == fs
  {
    if fs != [] {
      CountCons(fs, id);
      RemoveAbsent(fs[1..], id);
    }
  }

  /** Removing the oldest entry of an id leaves the latest starts of one balance less. */
  lemma {:induction false} RemoveLatest<T>(starts: seq<Frame<T>>, open: multiset<string>, id: string)
    requires Covered(starts, open) && id in open
    ensures RemoveFirst(Latest(starts, open), id) == Latest(starts, open - multiset{id})
  {
    if starts == [] {
      assert false;
    } else {
      var n := |starts| - 1;
      var f := starts[n];
      CoveredFront(starts, open);
      if f.id in open {
        var less := open - multiset{f.id};
        LatestCount(starts[..n], less, id);
        RemoveFromFront(Latest(starts[..n], less), f, id);
        if id in less {
          RemoveLatest(starts[..n], less, id);
          assert less - multiset{id} == (open - multiset{id}) - multiset{f.id};
        } else {
          assert f.id == id && open - multiset{id} == less;
        }
      } else {
        RemoveLatest(starts[..n], open, id);
      }
    }
  }

  lemma StartTracks<T>(fs: seq<Frame<T>>, t: Track<T>, f: Frame<T>)
    requires Tracks(fs, t)
    ensures Tracks(fs + [f], Started(t, f))
  {
    var u := Started(t, f);
    assert u.starts[..|t.starts|] == t.starts;
    assert u.open - multiset{f.id} == t.open;
    forall id | id in u.open ensures u.open[id] <= Count(u.starts, id) {
      CountPush(t.starts, f, id);
    }
  }

  lemma EndTracks<T>(fs: seq<Frame<T>>, t: Track<T>, id: string)
    requires Tracks(fs, t) && id != ""
    ensures Tracks(RemoveFirst(fs, id), Ended(t, id))
  {
    if id in t.open {
      RemoveLatest(t.starts, t.open, id);
    } else {
      LatestCount(t.starts, t.open, id);
      RemoveAbsent(fs, id);
    }
  }

  // ---- which starts those are, index by index ----

  function Ids<T>(fs: seq<Frame<T>>): multiset<string> {
    if fs == [] then multiset{} else multiset{fs[0].id} + Ids(fs[1..])
  }

  /** Start number i counts as in flight: fewer than `open` of its id came after it. */
  predicate StillOpen<T>(starts: seq<Frame<T>>, open: multiset<string>, i: nat)
    requires i < |starts|
  {
    Ids(starts[i + 1..])[starts[i].id] < open[starts[i].id]
  }

  function OpenStarts<T>(starts: seq<Frame<T>>, open: multiset<string>, n: nat): seq<Frame<T>>
    requires n <= |starts|
  {
    if n == 0 then []
    else OpenStarts(starts, open, n - 1) + if StillOpen(starts, open, n - 1) then [starts[n - 1]] else []
  }

  lemma TakeOne(open: multiset<string>, later: multiset<string>, id: string)
    ensures open - (multiset{id} + later) == (open - later) - multiset{id}
    ensures id in open - later <==> later[id] < open[id]
    ensures id !in open - later ==> (open - later) - multiset{id} == open - later
  {
  }

  lemma {:induction false} LatestPrefix<T>(starts: seq<Frame<T>>, open: multiset<string>, n: nat)
    requires n <= |starts|
    ensures Latest(starts[..n], open - Ids(starts[n..])) == OpenStarts(starts, open, n)
  {
    if n > 0 {
      var f := starts[n - 1];
      TakeOne(open, Ids(starts[n..]), f.id);
      LatestPrefix(starts, open, n - 1);
      assert starts[n - 1..][1..] == starts[n..];
      assert starts[..n][..n - 1] == starts[..n - 1];
    }
  }

  /** The list is the subsequence of the starts that are still open. */
  lemma InListIff<T>(starts: seq<Frame<T>>, open: multiset<string>)
    ensures Latest(starts, open) == OpenStarts(starts, open, |starts|)
  {
    LatestPrefix(starts, open, |starts|);
    assert starts[..|starts|] == starts && starts[|starts|..] == [];
    assert open - multiset{} == open;
  }
}
