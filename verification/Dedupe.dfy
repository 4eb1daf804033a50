/** The duplicate check of internal/messagefilter/filter.go: a swept map stands for the full history of recordings. */
module Dedupe {
  datatype Call = Call(key: string, now: int)

  // ---- the swept map ----

  function Swept(m: map<string, int>, now: int, ttl: int): map<string, int> {
    map k | k in m && now - m[k] <= ttl :: m[k]
  }

  function Seen(m: map<string, int>, c: Call, ttl: int): bool {
    c.key in Swept(m, c.now, ttl)
  }

  function After(m: map<string, int>, c: Call, ttl: int): map<string, int> {
    var s := Swept(m, c.now, ttl);
    if c.key in s then s else s[c.key := c.now]
  }

  class Deduper {
    const ttl: int
    var m: map<string, int>

    constructor (ttl: int)
      ensures this.ttl == ttl && m == map[]
    {
      this.ttl := ttl;
      m := map[];
    }

    method Look(c: Call) returns (hit: bool)
      modifies this
      ensures hit == Seen(old(m), c, ttl)
      ensures m == After(old(m), c, ttl)
    {
      var was, todo := m, m.Keys;
      while exists k :: k in todo
        invariant todo <= was.Keys
        invariant m == map k | k in was && (k in todo || c.now - was[k] <= ttl) :: was[k]
        decreases |todo|
      {
        var k :| k in todo;
        if c.now - m[k] > ttl {
          m := map j | j in m && j != k :: m[j];
        }
        todo := todo - {k};
      }
      assert m == Swept(was, c.now, ttl);
      if c.key in m {
        return true;
      }
      m := m[c.key := c.now];
      return false;
    }
  }

  // ---- the full history ----

  /** Recorded within the time to live. */
  predicate Recent(h: seq<Call>, c: Call, ttl: int) {
    exists i :: 0 <= i < |h| && h[i].key == c.key && c.now - h[i].now <= ttl
  }

  /** The recordings so far: a hit does not refresh. */
  function Record(h: seq<Call>, c: Call, ttl: int): seq<Call> {
    if Recent(h, c, ttl) then h else h + [c]
  }

  function MapAnswers(m: map<string, int>, calls: seq<Call>, ttl: int): seq<bool>
    decreases |calls|
  {
    if calls == [] then [] else [Seen(m, calls[0], ttl)] + MapAnswers(After(m, calls[0], ttl), calls[1..], ttl)
  }

  function HistoryAnswers(h: seq<Call>, calls: seq<Call>, ttl: int): seq<bool>
    decreases |calls|
  {
    if calls == [] then [] else [Recent(h, calls[0], ttl)] + HistoryAnswers(Record(h, calls[0], ttl), calls[1..], ttl)
  }

  /** The clock never goes back, starting from `last`. */
  predicate Forward(calls: seq<Call>, last: int) {
    calls != [] ==> last <= calls[0].now && Forward(calls[1..], calls[0].now)
  }

  /** The map holds the recordings that are still alive, and perhaps some that are not. */
  ghost predicate Stands(m: map<string, int>, h: seq<Call>, last: int, ttl: int) {
    && (forall k <- m :: Call(k, m[k]) in h)
    && (forall i :: 0 <= i < |h| ==> h[i].now <= last && (last - h[i].now <= ttl ==> h[i].key in m && m[h[i].key] == h[i].now))
  }

  lemma LookAgrees(m: map<string, int>, h: seq<Call>, last: int, c: Call, ttl: int)
    requires Stands(m, h, last, ttl) && last <= c.now
    ensures Seen(m, c, ttl) <==> Recent(h, c, ttl)
    ensures Stands(After(m, c, ttl), Record(h, c, ttl), c.now, ttl)
  {
    if Seen(m, c, ttl) {
      assert Call(c.key, m[c.key]) in h;
      var i :| 0 <= i < |h| && h[i] == Call(c.key, m[c.key]);
      assert Recent(h, c, ttl);
    }
  }

  /** The swept map answers every sequence of look-ups as an unswept list of recordings would. */
  lemma {:induction false} SweepingRefinesHistory(m: map<string, int>, h: seq<Call>, last: int, calls: seq<Call>, ttl: int)
    requires Stands(m, h, last, ttl) && Forward(calls, last)
    ensures MapAnswers(m, calls, ttl) == HistoryAnswers(h, calls, ttl)
    decreases |calls|
  {
    if calls != [] {
      LookAgrees(m, h, last, calls[0], ttl);
      SweepingRefinesHistory(After(m, calls[0], ttl), Record(h, calls[0], ttl), calls[0].now, calls[1..], ttl);
    }
  }

  lemma FreshStart(calls: seq<Call>, ttl: int)
    requires calls != [] ==> Forward(calls, calls[0].now)
    ensures MapAnswers(map[], calls, ttl) == HistoryAnswers([], calls, ttl)
  {
    SweepingRefinesHistory(map[], [], if calls == [] then 0 else calls[0].now, calls, ttl);
  }

  /** A clock that goes back breaks this: the sweep at 9 forgets what was recorded at 0. */
  lemma ClockMustNotGoBack()
    ensures var calls := [Call("a", 0), Call("b", 9), Call("a", 3)];
            MapAnswers(map[], calls, 5) == [false, false, false] && HistoryAnswers([], calls, 5) == [false, false, true]
  {
    var a, b, a' := Call("a", 0), Call("b", 9), Call("a", 3);
    var calls := [a, b, a'];
    assert a.key[0] != b.key[0];
    var m1 := After(map[], a, 5);
    assert Swept(map[], 0, 5) == map[] && m1 == map["a" := 0];
    var m2 := After(m1, b, 5);
    assert Swept(m1, 9, 5) == map[] && m2 == map["b" := 9];
    assert !Seen(m2, a', 5);
    var h1 := Record([], a, 5);
    assert h1 == [a];
    var h2 := Record(h1, b, 5);
    assert h2 == [a, b];
    assert h2[0] == a && Recent(h2, a', 5);
    assert calls[1..] == [b, a'] && calls[1..][1..] == [a'] && [a'][1..] == [];
    assert MapAnswers(m2, [a'], 5) == [false] + MapAnswers(After(m2, a', 5), [], 5);
    assert HistoryAnswers(h2, [a'], 5) == [true] + HistoryAnswers(Record(h2, a', 5), [], 5);
    assert MapAnswers(m1, [b, a'], 5) == [false] + MapAnswers(m2, [a'], 5);
    assert HistoryAnswers(h1, [b, a'], 5) == [false] + HistoryAnswers(h2, [a'], 5);
  }

  // ---- what a recording prevents later ----

  /** A recording is still known, or it is older than the time to live. */
  predicate Known(m: map<string, int>, c: Call, last: int, ttl: int) {
    c.now <= last && (last - c.now <= ttl ==> c.key in m && m[c.key] >= c.now)
  }

  lemma RecordedIsKnown(m: map<string, int>, c: Call, ttl: int)
    requires !Seen(m, c, ttl)
    ensures Known(After(m, c, ttl), c, c.now, ttl)
  {
  }

  lemma KnownStays(m: map<string, int>, r: Call, last: int, c: Call, ttl: int)
    requires Known(m, r, last, ttl) && last <= c.now
    ensures Known(After(m, c, ttl), r, c.now, ttl)
    ensures c.key == r.key && !Seen(m, c, ttl) ==> c.now - r.now > ttl
  {
  }
}
