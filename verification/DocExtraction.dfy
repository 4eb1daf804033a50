/** The extraction steps once more on texts with holes: code may contain, and stand between, earlier placeholders. */
module DocExtraction {
  import opened Search
  import opened Placeholders
  import opened Restoring
  import opened Extraction

  predicate TickFree(d: Doc) {
    forall h :: h in Holes(d) ==> '`' !in h
  }

  predicate Ticks(q: string) {
    q != "" && forall i :: 0 <= i < |q| ==> q[i] == '`'
  }

  // ---- splitting ----

  function Ends(ps: seq<string>): seq<Doc> {
    seq(|ps|, k requires 0 <= k < |ps| => End(ps[k]))
  }

  function SplitDoc(d: Doc, q: string): (ds: seq<Doc>)
    requires q != ""
    ensures ds != []
  {
    match d
    case End(l) => Ends(Split(l, q))
    case Node(l, h, r) =>
      var ps, qs := Split(l, q), SplitDoc(r, q);
      Ends(ps[..|ps| - 1]) + [Node(ps[|ps| - 1], h, qs[0])] + qs[1..]
  }

  /** The parts of a text with something unsplittable in the middle. */
  function Bridge(ps: seq<string>, mid: string, qs: seq<string>): seq<string>
    requires ps != [] && qs != []
  {
    ps[..|ps| - 1] + [ps[|ps| - 1] + mid + qs[0]] + qs[1..]
  }

  lemma NotOnlyTicks(s: string, k: nat, q: string, j: nat)
    requires Ticks(q) && j < |q| && k + j < |s| && s[k + j] != '`'
    ensures !HasAt(s, k, q)
  {
    if k + |q| <= |s| {
      assert s[k..k + |q|][j] != q[j];
    }
  }

  /** A separator none of whose characters occurs in a text. */
  predicate Foreign(q: string, mid: string) {
    q != "" && forall i :: 0 <= i < |q| ==> q[i] !in mid
  }

  lemma NoMatchBefore(l: string, mid: string, rest: string, q: string, k: nat)
    requires Foreign(q, mid) && mid != "" && Find(l, q) < 0 && k < |l| + |mid|
    ensures !HasAt(l + mid + rest, k, q)
  {
    var s := l + mid + rest;
    if k + |q| <= |l| {
      assert s[k..k + |q|] == l[k..k + |q|];
      assert !HasAt(l, k, q);
    } else if k + |q| <= |s| {
      var j := if k >= |l| then 0 else |l| - k;
      assert s[k + j] == mid[k + j - |l|];
      assert s[k..k + |q|][j] != q[j];
    }
  }

  lemma {:induction false} SplitBridge(l: string, mid: string, rest: string, q: string)
    requires Foreign(q, mid) && mid != ""
    ensures Split(l + mid + rest, q) == Bridge(Split(l, q), mid, Split(rest, q))
    decreases |l|
  {
    var i := Find(l, q);
    if i < 0 {
      SplitBridgeEnd(l, mid, rest, q);
    } else {
      SplitBridge(l[i + |q|..], mid, rest, q);
      SplitFirst(l, mid + rest, q);
      WeaveTwo(l, mid, rest);
      WeaveTwo(l[i + |q|..], mid, rest);
      BridgeCons(l[..i], Split(l[i + |q|..], q), mid, Split(rest, q));
    }
  }

  /** A match inside a prefix is the first match of the whole. */
  lemma SplitFirst(l: string, w: string, q: string)
    requires q != "" && Find(l, q) >= 0
    ensures var i := Find(l, q);
            Split(l + w, q) == [l[..i]] + Split(l[i + |q|..] + w, q)
  {
    var i := Find(l, q);
    assert HasAt(l, i, q);
    FirstStays(l, w, q);
    SplitAt(l + w, q, i);
    BeforeSuffix(l, w, i, i + |q|);
  }

  lemma FirstStays(l: string, w: string, q: string)
    requires Find(l, q) >= 0
    ensures Find(l + w, q) == Find(l, q)
  {
    var i, s := Find(l, q), l + w;
    forall k | 0 <= k <= i ensures HasAt(s, k, q) <==> HasAt(l, k, q) {
      assert s[k..k + |q|] == l[k..k + |q|];
    }
    FindIs(s, q, i);
  }

  lemma BridgeCons(p: string, ps: seq<string>, mid: string, qs: seq<string>)
    requires ps != [] && qs != []
    ensures Bridge([p] + ps, mid, qs) == [p] + Bridge(ps, mid, qs)
  {
    assert ([p] + ps)[..|ps|] == [p] + ps[..|ps| - 1];
  }

  lemma SplitBridgeEnd(l: string, mid: string, rest: string, q: string)
    requires Foreign(q, mid) && mid != "" && Find(l, q) < 0
    ensures Split(l + mid + rest, q) == Bridge(Split(l, q), mid, Split(rest, q))
  {
    var p := l + mid;
    forall k | 0 <= k < |p| ensures !HasAt(p + rest, k, q) {
      NoMatchBefore(l, mid, rest, q, k);
    }
    SplitAfter(p, rest, q);
    SplitNone(l, q);
    BridgeOne(l, mid, Split(rest, q), Split(p + rest, q));
  }

  /** Splitting on past a part in which no match begins. */
  lemma SplitAfter(p: string, w: string, q: string)
    requires q != "" && forall i :: 0 <= i < |p| ==> !HasAt(p + w, i, q)
    ensures Split(p + w, q)[0] == p + Split(w, q)[0] && Split(p + w, q)[1..] == Split(w, q)[1..]
  {
    FindAfter(p, w, q);
    var f := Find(w, q);
    if f >= 0 {
      assert HasAt(w, f, q);
      AfterPrefix(p, w, f, f + |q|);
      SplitHead(p + w, q, |p| + f);
      SplitHead(w, q, f);
      SameTail(p + w, |p| + f, w, f, q);
    } else {
      SplitNone(p + w, q);
      SplitNone(w, q);
    }
  }

  lemma SameTail(s: string, i: nat, w: string, f: nat, q: string)
    requires q != "" && Find(s, q) == i && i + |q| <= |s| && Find(w, q) == f && f + |q| <= |w|
    requires s[i + |q|..] == w[f + |q|..]
    ensures Split(s, q)[1..] == Split(w, q)[1..]
  {
    SplitHead(s, q, i);
    SplitHead(w, q, f);
  }

  lemma SplitNone(s: string, q: string)
    requires q != "" && Find(s, q) < 0
    ensures Split(s, q) == [s]
  {
  }

  lemma SplitAt(s: string, q: string, i: nat)
    requires q != "" && Find(s, q) == i && i + |q| <= |s|
    ensures Split(s, q) == [s[..i]] + Split(s[i + |q|..], q)
  {
  }

  lemma BeforeSuffix(l: string, w: string, f: nat, g: nat)
    requires f <= g <= |l|
    ensures (l + w)[..f] == l[..f] && (l + w)[g..] == l[g..] + w
  {
  }

  lemma AfterPrefix(p: string, w: string, f: nat, g: nat)
    requires f <= g <= |w|
    ensures (p + w)[..|p| + f] == p + w[..f] && (p + w)[|p| + g..] == w[g..]
  {
  }

  lemma SplitHead(s: string, q: string, i: nat)
    requires q != "" && Find(s, q) == i && i + |q| <= |s|
    ensures Split(s, q)[0] == s[..i] && Split(s, q)[1..] == Split(s[i + |q|..], q)
  {
    SplitAt(s, q, i);
    HeadTail(s[..i], Split(s[i + |q|..], q));
  }

  lemma HeadTail<T>(a: T, x: seq<T>)
    ensures ([a] + x)[0] == a && ([a] + x)[1..] == x
  {
  }

  lemma BridgeOne(l: string, mid: string, qs: seq<string>, ps: seq<string>)
    requires qs != [] && ps != [] && ps[0] == l + mid + qs[0] && ps[1..] == qs[1..]
    ensures ps == Bridge([l], mid, qs)
  {
    assert ps == [ps[0]] + ps[1..];
  }

  lemma TextsConcat(ds: seq<Doc>, es: seq<Doc>)
    ensures Texts(ds + es) == Texts(ds) + Texts(es)
  {
  }

  lemma TextsEnds(ps: seq<string>)
    ensures Texts(Ends(ps)) == ps
  {
  }

  /** No placeholder of the text shares a character with the separator. */
  predicate Uncut(d: Doc, q: string) {
    q != "" && forall h :: h in Holes(d) ==> Foreign(q, Key(h))
  }

  lemma TicksUncut(d: Doc, q: string)
    requires Ticks(q) && TickFree(d)
    ensures Uncut(d, q)
  {
    forall h, i | h in Holes(d) && 0 <= i < |q| ensures q[i] !in Key(h) {
      assert '`' !in h;
    }
  }

  lemma {:induction false} SplitDocTexts(d: Doc, q: string)
    requires Uncut(d, q)
    ensures Texts(SplitDoc(d, q)) == Split(Text(d), q)
  {
    match d
    case End(l) => TextsEnds(Split(l, q));
    case Node(l, h, r) =>
      assert h in Holes(d) && forall x :: x in Holes(r) ==> x in Holes(d);
      SplitDocTexts(r, q);
      SplitBridge(l, Key(h), Text(r), q);
      WeaveTwo(l, Key(h), Text(r));
      KeyText(l, h, Text(r));
      BridgeTexts(Split(l, q), h, SplitDoc(r, q));
    }

  lemma KeyText(l: string, h: string, x: string)
    ensures l + [NUL] + h + [NUL] + x == l + Key(h) + x
  {
  }

  lemma BridgeTexts(ps: seq<string>, h: string, qs: seq<Doc>)
    requires ps != [] && qs != []
    ensures Texts(Ends(ps[..|ps| - 1]) + [Node(ps[|ps| - 1], h, qs[0])] + qs[1..]) == Bridge(ps, Key(h), Texts(qs))
  {
    var front, node := Ends(ps[..|ps| - 1]), Node(ps[|ps| - 1], h, qs[0]);
    TextsEnds(ps[..|ps| - 1]);
    TextsConcat(front + [node], qs[1..]);
    TextsConcat(front, [node]);
    KeyText(ps[|ps| - 1], h, Text(qs[0]));
    TextsTail(qs);
    assert Texts([node]) == [Text(node)];
  }

  lemma TextsTail(qs: seq<Doc>)
    requires qs != []
    ensures Texts(qs)[1..] == Texts(qs[1..]) && Texts(qs)[0] == Text(qs[0])
  {
  }

  // ---- weaving ----

  function WeaveDoc(ds: seq<Doc>, t: Tag, n: nat): Doc {
    if ds == [] then End("")
    else if |ds| == 1 then ds[0]
    else Append(ds[0], Append(Node("", Body(t, n), End("")), WeaveDoc(ds[2..], t, n + 1)))
  }

  lemma {:induction false} WeaveText(ds: seq<Doc>, t: Tag, n: nat)
    ensures Text(WeaveDoc(ds, t, n)) == Weave(Texts(ds), t, n)
  {
    if |ds| >= 2 {
      WeaveText(ds[2..], t, n + 1);
      assert Texts(ds)[2..] == Texts(ds[2..]);
      var hole, rest := Node("", Body(t, n), End("")), WeaveDoc(ds[2..], t, n + 1);
      TextAppend(hole, rest);
      TextAppend(ds[0], Append(hole, rest));
      HoleText(Body(t, n));
      WeaveTwo(Text(ds[0]), Placeholder(t, n), Text(rest));
    }
  }

  lemma HoleText(b: string)
    ensures Text(Node("", b, End(""))) == Key(b)
  {
  }

  lemma {:induction false} OddsTexts(ds: seq<Doc>)
    ensures Odds(Texts(ds)) == Texts(Odds(ds))
  {
    if |ds| >= 2 {
      OddsTexts(ds[2..]);
      assert Texts(ds)[2..] == Texts(ds[2..]);
    }
  }

  function Wrap(q: string, d: Doc): Doc {
    Append(End(q), Append(d, End(q)))
  }

  function JoinDoc(ds: seq<Doc>, q: string): Doc
    requires ds != []
  {
    if |ds| == 1 then ds[0] else Append(ds[0], Append(End(q), JoinDoc(ds[1..], q)))
  }

  lemma {:induction false} JoinText(ds: seq<Doc>, q: string)
    requires ds != []
    ensures Text(JoinDoc(ds, q)) == Join(Texts(ds), q)
  {
    if |ds| > 1 {
      JoinText(ds[1..], q);
      assert Texts(ds)[1..] == Texts(ds[1..]);
      TextAppend(End(q), JoinDoc(ds[1..], q));
      TextAppend(ds[0], Append(End(q), JoinDoc(ds[1..], q)));
      WeaveTwo(Text(ds[0]), q, Text(JoinDoc(ds[1..], q)));
    }
  }

  /** What the environment must say about the parts, numbered from `n`. */
  ghost predicate Known(ds: seq<Doc>, t: Tag, n: nat, env: map<string, Doc>, q: string) {
    && |ds| % 2 == 1
    && (forall h :: h in Holes(ds[0]) ==> h !in env)
    && (|ds| >= 3 ==> Body(t, n) in env && env[Body(t, n)] == Wrap(q, ds[1]) && Known(ds[2..], t, n + 1, env, q))
  }

  /** Putting the wrapped codes back into the woven text gives the joined parts. */
  lemma {:induction false} SubstWeave(ds: seq<Doc>, t: Tag, n: nat, env: map<string, Doc>, q: string)
    requires Known(ds, t, n, env, q)
    ensures Subst(WeaveDoc(ds, t, n), env) == JoinDoc(ds, q)
    decreases |ds|
  {
    SubstNothing(ds[0], env);
    if |ds| >= 3 {
      SubstWeave(ds[2..], t, n + 1, env, q);
      SubstPiece(ds[0], Body(t, n), WeaveDoc(ds[2..], t, n + 1), env);
      JoinWrap(ds, q);
    }
  }

  lemma SubstPiece(d: Doc, b: string, tail: Doc, env: map<string, Doc>)
    requires b in env
    ensures Subst(Append(d, Append(Node("", b, End("")), tail)), env) ==
            Append(Subst(d, env), Append(env[b], Subst(tail, env)))
  {
    var hole := Node("", b, End(""));
    SubstAppend(d, Append(hole, tail), env);
    SubstAppend(hole, tail, env);
    AppendEmpty(env[b]);
    assert Subst(hole, env) == env[b];
  }

  lemma JoinWrap(ds: seq<Doc>, q: string)
    requires |ds| >= 3
    ensures JoinDoc(ds, q) == Append(ds[0], Append(Wrap(q, ds[1]), JoinDoc(ds[2..], q)))
  {
    var j := JoinDoc(ds[2..], q);
    assert ds[1..][1..] == ds[2..];
    AppendAssoc(End(q), Append(ds[1], End(q)), j);
    AppendAssoc(ds[1], End(q), j);
  }
}
