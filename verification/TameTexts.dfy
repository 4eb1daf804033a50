/** Texts in which nothing but the placeholders themselves can be taken for a placeholder, and what extraction keeps of that. */
module TameTexts {
  import opened Search
  import opened Placeholders
  import opened Restoring
  import opened Extraction
  import opened DocExtraction

  /** How every body begins: IC, CB or ST and a digit. */
  predicate BodyStart(a: char, b: char, c: char) {
    ((a == 'S' && b == 'T') || (a == 'I' && b == 'C') || (a == 'C' && b == 'B')) && '0' <= c <= '9'
  }

  /** No NUL in a literal; read strictly, nothing either that begins like a body. */
  predicate Plain(l: string, strict: bool) {
    NulFree(l) && (strict ==> NoBodyStart(l))
  }

  predicate NoBodyStart(l: string) {
    forall i :: 0 <= i < |l| - 2 ==> !BodyStart(l[i], l[i + 1], l[i + 2])
  }

  lemma PlainNotBody(l: string)
    requires Plain(l, true)
    ensures !IsBody(l)
  {
    forall t: Tag, n: nat ensures l != Body(t, n) {
      var b := Body(t, n);
      DecShape(n);
      assert b[0] == Letters(t)[0] && b[1] == Letters(t)[1] && b[2] == Dec(n)[0];
      assert BodyStart(b[0], b[1], b[2]);
    }
  }

  lemma PlainSlice(l: string, i: nat, j: nat, strict: bool)
    requires Plain(l, strict) && i <= j <= |l|
    ensures Plain(l[i..j], strict)
  {
    var m := l[i..j];
    if strict {
      forall k | 0 <= k < |m| - 2 ensures !BodyStart(m[k], m[k + 1], m[k + 2]) {
        assert !BodyStart(l[i + k], l[i + k + 1], l[i + k + 2]);
      }
    }
  }

  lemma PlainGlue(a: string, q: string, b: string, strict: bool)
    requires Plain(a, strict) && Plain(b, strict) && Ticks(q)
    ensures Plain(a + q + b, strict)
  {
    if strict {
      NoStartGlue(a, q, b);
    }
  }

  lemma NoStartGlue(a: string, q: string, b: string)
    requires NoBodyStart(a) && NoBodyStart(b) && Ticks(q)
    ensures NoBodyStart(a + q + b)
  {
    var m := a + q + b;
    forall k | 0 <= k < |m| - 2 ensures !BodyStart(m[k], m[k + 1], m[k + 2]) {
      if k + 2 < |a| {
        assert !BodyStart(a[k], a[k + 1], a[k + 2]);
      } else if k >= |a| + |q| {
        var j := k - |a| - |q|;
        assert !BodyStart(b[j], b[j + 1], b[j + 2]);
      } else if k >= |a| {
        assert m[k] == q[k - |a|];
      } else {
        assert m[|a|] == q[0];
      }
    }
  }

  ghost predicate Tame(d: Doc, strict: bool) {
    match d
    case End(l) => Plain(l, strict)
    case Node(l, h, r) => Plain(l, strict) && IsBody(h) && Tame(r, strict)
  }

  lemma BodyPlainChars(h: string)
    requires IsBody(h)
    ensures NulFree(h) && '`' !in h
  {
    var t: Tag, n: nat :| h == Body(t, n);
    BodyChars(t, n);
  }

  lemma {:induction false} TameIsSafe(d: Doc, strict: bool)
    requires Tame(d, strict)
    ensures Clean(d) && TickFree(d) && (strict ==> SafeRest(d) && Safe(d))
  {
    if d.Node? {
      BodyPlainChars(d.hole);
      if strict {
        PlainNotBody(d.lit);
      }
      TameIsSafe(d.rest, strict);
      assert Holes(d) == [d.hole] + Holes(d.rest);
    }
  }

  /** Two texts with backticks between them. */
  function Glued(d: Doc, q: string, e: Doc): Doc {
    Append(d, Append(End(q), e))
  }

  lemma {:induction false} TameGlued(d: Doc, q: string, e: Doc, strict: bool)
    requires Tame(d, strict) && Tame(e, strict) && Ticks(q)
    ensures Tame(Glued(d, q, e), strict)
  {
    match d
    case End(l) =>
      PlainGlue(l, q, e.lit, strict);
      WeaveTwo(l, q, e.lit);
    case Node(_, _, r) => TameGlued(r, q, e, strict);
  }

  lemma {:induction false} TameHole(d: Doc, b: string, e: Doc, strict: bool)
    requires Tame(d, strict) && Tame(e, strict) && IsBody(b)
    ensures Tame(Append(d, Append(Node("", b, End("")), e)), strict)
  {
    match d
    case End(l) =>
      AppendEmpty(e);
      PlusNothing(l);
    case Node(_, _, r) => TameHole(r, b, e, strict);
  }

  ghost predicate AllTame(ds: seq<Doc>, strict: bool) {
    forall k :: 0 <= k < |ds| ==> Tame(ds[k], strict)
  }

  // ---- splitting keeps tameness and holes ----

  lemma {:induction false} SplitPlain(l: string, q: string, strict: bool)
    requires Plain(l, strict) && q != ""
    ensures forall k :: 0 <= k < |Split(l, q)| ==> Plain(Split(l, q)[k], strict)
    decreases |l|
  {
    var i := Find(l, q);
    if i >= 0 {
      PlainSlice(l, 0, i, strict);
      PlainSlice(l, i + |q|, |l|, strict);
      SplitPlain(l[i + |q|..], q, strict);
    }
  }

  lemma {:induction false} SplitTame(d: Doc, q: string, strict: bool)
    requires Tame(d, strict) && q != ""
    ensures AllTame(SplitDoc(d, q), strict)
  {
    match d
    case End(l) => SplitPlain(l, q, strict);
    case Node(l, _, r) =>
      SplitPlain(l, q, strict);
      SplitTame(r, q, strict);
  }

  function AllHoles(ds: seq<Doc>): multiset<string> {
    if ds == [] then multiset{} else multiset(Holes(ds[0])) + AllHoles(ds[1..])
  }

  lemma {:induction false} AllHolesConcat(ds: seq<Doc>, es: seq<Doc>)
    ensures AllHoles(ds + es) == AllHoles(ds) + AllHoles(es)
  {
    if ds == [] {
      assert ds + es == es;
    } else {
      assert (ds + es)[1..] == ds[1..] + es;
      AllHolesConcat(ds[1..], es);
    }
  }

  lemma {:induction false} EndsNoHoles(ps: seq<string>)
    ensures AllHoles(Ends(ps)) == multiset{}
  {
    if ps != [] {
      assert Ends(ps)[1..] == Ends(ps[1..]);
      EndsNoHoles(ps[1..]);
    }
  }

  lemma {:induction false} SplitHoles(d: Doc, q: string)
    requires q != ""
    ensures AllHoles(SplitDoc(d, q)) == multiset(Holes(d))
  {
    match d
    case End(l) => EndsNoHoles(Split(l, q));
    case Node(l, h, r) =>
      var ps, qs := Split(l, q), SplitDoc(r, q);
      SplitHoles(r, q);
      EndsNoHoles(ps[..|ps| - 1]);
      BridgeHoles(Ends(ps[..|ps| - 1]), ps[|ps| - 1], h, qs);
  }

  lemma BridgeHoles(front: seq<Doc>, l: string, h: string, qs: seq<Doc>)
    requires qs != []
    ensures AllHoles(front + [Node(l, h, qs[0])] + qs[1..]) == AllHoles(front) + multiset{h} + AllHoles(qs)
  {
    var node := Node(l, h, qs[0]);
    AllHolesConcat(front + [node], qs[1..]);
    AllHolesConcat(front, [node]);
    assert [node][1..] == [];
    assert Holes(node) == [h] + Holes(qs[0]);
  }

  lemma {:induction false} JoinTame(ds: seq<Doc>, q: string, strict: bool)
    requires ds != [] && AllTame(ds, strict) && Ticks(q)
    ensures Tame(JoinDoc(ds, q), strict)
  {
    if |ds| > 1 {
      JoinTame(ds[1..], q, strict);
      TameGlued(ds[0], q, JoinDoc(ds[1..], q), strict);
    }
  }

  lemma {:induction false} JoinHoles(ds: seq<Doc>, q: string)
    requires ds != []
    ensures multiset(Holes(JoinDoc(ds, q))) == AllHoles(ds)
  {
    if |ds| > 1 {
      var j := JoinDoc(ds[1..], q);
      JoinHoles(ds[1..], q);
      HolesAppend(End(q), j);
      HolesAppend(ds[0], Append(End(q), j));
    } else {
      assert ds[1..] == [];
    }
  }

  // ---- weaving ----

  ghost predicate EvensTame(ds: seq<Doc>, strict: bool) {
    ds != [] ==> Tame(ds[0], strict) && (|ds| >= 2 ==> EvensTame(ds[2..], strict))
  }

  lemma {:induction false} AllTameEvens(ds: seq<Doc>, strict: bool)
    requires AllTame(ds, strict)
    ensures EvensTame(ds, strict)
    decreases |ds|
  {
    if |ds| >= 2 {
      AllTameEvens(ds[2..], strict);
    }
  }

  lemma {:induction false} WeaveTame(ds: seq<Doc>, t: Tag, n: nat, strict: bool)
    requires EvensTame(ds, strict)
    ensures Tame(WeaveDoc(ds, t, n), strict)
    decreases |ds|
  {
    if ds == [] {
      assert WeaveDoc(ds, t, n) == End("");
    } else if |ds| >= 2 {
      WeaveTame(ds[2..], t, n + 1, strict);
      TameHole(ds[0], Body(t, n), WeaveDoc(ds[2..], t, n + 1), strict);
    }
  }

  function EvenHoles(ds: seq<Doc>): multiset<string> {
    if ds == [] then multiset{}
    else if |ds| == 1 then multiset(Holes(ds[0]))
    else multiset(Holes(ds[0])) + EvenHoles(ds[2..])
  }

  /** The placeholders of one kind with numbers from `n` on, `m` of them. */
  function Numbered(t: Tag, n: nat, m: nat): multiset<string>
    decreases m
  {
    if m == 0 then multiset{} else multiset{Body(t, n)} + Numbered(t, n + 1, m - 1)
  }

  lemma {:induction false} NumberedCount(t: Tag, n: nat, m: nat, u: Tag, k: nat)
    ensures Numbered(t, n, m)[Body(u, k)] == if t == u && n <= k < n + m then 1 else 0
    decreases m
  {
    if m > 0 {
      NumberedCount(t, n + 1, m - 1, u, k);
      BodyInjective(t, n, u, k);
      NumberedStep(t, n, m, Body(u, k));
    }
  }

  lemma {:induction false} NumberedBodies(t: Tag, n: nat, m: nat)
    ensures forall h <- Numbered(t, n, m) :: exists k: nat :: n <= k < n + m && h == Body(t, k)
    decreases m
  {
    if m > 0 {
      NumberedBodies(t, n + 1, m - 1);
    }
  }

  lemma {:induction false} WeaveCount(ds: seq<Doc>, t: Tag, n: nat, x: string)
    ensures HoleCount(WeaveDoc(ds, t, n), x) == EvenHoles(ds)[x] + Numbered(t, n, |ds| / 2)[x]
    decreases |ds|
  {
    if |ds| >= 2 {
      WeaveCount(ds[2..], t, n + 1, x);
      assert |ds[2..]| / 2 == |ds| / 2 - 1;
      WeaveMore(ds, t, n, |ds| / 2, WeaveDoc(ds[2..], t, n + 1), x);
    } else {
      WeaveFew(ds, t, n, x);
    }
  }

  lemma WeaveFew(ds: seq<Doc>, t: Tag, n: nat, x: string)
    requires |ds| < 2
    ensures HoleCount(WeaveDoc(ds, t, n), x) == EvenHoles(ds)[x] + Numbered(t, n, |ds| / 2)[x]
  {
  }

  lemma WeaveMore(ds: seq<Doc>, t: Tag, n: nat, m: nat, tail: Doc, x: string)
    requires |ds| >= 2 && m > 0 && HoleCount(tail, x) == EvenHoles(ds[2..])[x] + Numbered(t, n + 1, m - 1)[x]
    ensures HoleCount(Append(ds[0], Append(Node("", Body(t, n), End("")), tail)), x) == EvenHoles(ds)[x] + Numbered(t, n, m)[x]
  {
    PieceCount(ds[0], Body(t, n), tail, x);
    EvenStep(ds, x);
    NumberedStep(t, n, m, x);
  }

  lemma EvenStep(ds: seq<Doc>, x: string)
    requires |ds| >= 2
    ensures EvenHoles(ds)[x] == HoleCount(ds[0], x) + EvenHoles(ds[2..])[x]
  {
  }

  lemma NumberedStep(t: Tag, n: nat, m: nat, x: string)
    requires m > 0
    ensures Numbered(t, n, m)[x] == (if Body(t, n) == x then 1 else 0) + Numbered(t, n + 1, m - 1)[x]
  {
  }

  lemma PieceCount(d: Doc, b: string, tail: Doc, x: string)
    ensures HoleCount(Append(d, Append(Node("", b, End("")), tail)), x) ==
            HoleCount(d, x) + (if b == x then 1 else 0) + HoleCount(tail, x)
  {
    var hole := Node("", b, End(""));
    HolesAppend(hole, tail);
    HolesAppend(d, Append(hole, tail));
    CountThree(Holes(d), b, Holes(tail), x);
  }

  lemma CountThree(a: seq<string>, b: string, c: seq<string>, x: string)
    ensures multiset(a + ([b] + c))[x] == multiset(a)[x] + (if b == x then 1 else 0) + multiset(c)[x]
  {
  }

  /** Text and code together hold all placeholders. */
  lemma {:induction false} EvensAndOdds(ds: seq<Doc>)
    ensures EvenHoles(ds) + AllHoles(Odds(ds)) == AllHoles(ds)
    decreases |ds|
  {
    if |ds| >= 2 {
      EvensAndOdds(ds[2..]);
      assert ds[1..][1..] == ds[2..];
      assert Odds(ds) == [ds[1]] + Odds(ds[2..]);
      assert Odds(ds)[1..] == Odds(ds[2..]);
    } else if |ds| == 1 {
      assert ds[1..] == [];
    }
  }

  lemma HolesOfPart(ds: seq<Doc>, k: nat)
    requires k < |ds|
    ensures multiset(Holes(ds[k])) <= AllHoles(ds)
  {
    assert ds == ds[..k] + ([ds[k]] + ds[k + 1..]);
    AllHolesConcat(ds[..k], [ds[k]] + ds[k + 1..]);
    assert ([ds[k]] + ds[k + 1..])[1..] == ds[k + 1..];
  }
}
