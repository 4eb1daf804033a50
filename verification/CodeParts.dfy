/** The two code extractions on texts with holes: what they do to placeholders, and how the restore loops undo them. */
module CodeParts {
  import opened Search
  import opened Placeholders
  import opened Restoring
  import opened Extraction
  import opened DocExtraction
  import opened TameTexts

  // ---- code fences ----

  function FencePartsDoc(d: Doc): seq<Doc> {
    RegularDoc(SplitDoc(d, FENCE), d, FENCE)
  }

  function RegularDoc(ds: seq<Doc>, d: Doc, q: string): seq<Doc>
    requires ds != []
  {
    if |ds| < 3 then [d] else if |ds| % 2 == 1 then ds else ds + [Repeated(ds, q)]
  }

  /** The last part once more, with the fence in front. */
  function Repeated(ds: seq<Doc>, q: string): Doc
    requires ds != []
  {
    Glued(End(""), q, ds[|ds| - 1])
  }

  lemma GluedText(d: Doc, q: string, e: Doc)
    ensures Text(Glued(d, q, e)) == Text(d) + (q + Text(e))
  {
    TextAppend(End(q), e);
    TextAppend(d, Append(End(q), e));
  }

  lemma FenceTexts(d: Doc)
    requires Tame(d, false)
    ensures Texts(FencePartsDoc(d)) == FenceParts(Text(d)) && |FencePartsDoc(d)| % 2 == 1
  {
    TameIsSafe(d, false);
    TicksUncut(d, FENCE);
    SplitDocTexts(d, FENCE);
    RegularTexts(SplitDoc(d, FENCE), Split(Text(d), FENCE), d, FENCE);
  }

  lemma RegularTexts(ds: seq<Doc>, ps: seq<string>, d: Doc, q: string)
    requires ds != [] && Texts(ds) == ps
    ensures Texts(RegularDoc(ds, d, q)) == Regular(ps, Text(d), q) && |RegularDoc(ds, d, q)| % 2 == 1
  {
    RepeatTexts(ds, q);
  }

  lemma RepeatTexts(ds: seq<Doc>, q: string)
    requires ds != []
    ensures Texts(ds + [Repeated(ds, q)]) == LastRepeated(Texts(ds), q)
  {
    var last := ds[|ds| - 1];
    GluedText(End(""), q, last);
    assert "" + (q + Text(last)) == q + Text(last);
    TextsConcat(ds, [Glued(End(""), q, last)]);
  }

  lemma GluedTexts(ds: seq<Doc>, q: string)
    requires |ds| >= 2
    ensures Texts(LastTwoGluedDoc(ds, q)) == LastTwoGlued(Texts(ds), q)
  {
    var n := |ds|;
    GluedText(ds[n - 2], q, ds[n - 1]);
    WeaveTwo(Text(ds[n - 2]), q, Text(ds[n - 1]));
    TextsConcat(ds[..n - 2], [Glued(ds[n - 2], q, ds[n - 1])]);
    assert Texts(ds)[..n - 2] == Texts(ds[..n - 2]);
  }

  lemma FenceTame(d: Doc, strict: bool)
    requires Tame(d, strict)
    ensures AllTame(FencePartsDoc(d), strict)
  {
    SplitTame(d, FENCE, strict);
    RegularTame(SplitDoc(d, FENCE), d, FENCE, strict);
  }

  lemma RegularTame(ds: seq<Doc>, d: Doc, q: string, strict: bool)
    requires AllTame(ds, strict) && Tame(d, strict) && ds != [] && Ticks(q)
    ensures AllTame(RegularDoc(ds, d, q), strict)
  {
    TameGlued(End(""), q, ds[|ds| - 1], strict);
  }

  /** What joining the fence parts gives: the text, and an extra piece if the fences do not pair. */
  lemma FenceJoins(d: Doc)
    requires Tame(d, false)
    ensures JoinsTo(FencePartsDoc(d), d, FENCE, Fences(Text(d)))
  {
    PartsJoin(d, FENCE);
  }

  lemma PartsJoin(d: Doc, q: string)
    requires Tame(d, false) && Ticks(q)
    ensures JoinsTo(RegularDoc(SplitDoc(d, q), d, q), d, q, |Split(Text(d), q)| - 1)
  {
    SplitJoins(d, q);
    SplitSize(d, q);
    RegularJoins(SplitDoc(d, q), d, q, |Split(Text(d), q)| - 1);
  }

  lemma SplitSize(d: Doc, q: string)
    requires Tame(d, false) && Ticks(q)
    ensures |SplitDoc(d, q)| == |Split(Text(d), q)|
  {
    TameIsSafe(d, false);
    TicksUncut(d, q);
    SplitDocTexts(d, q);
    assert |Texts(SplitDoc(d, q))| == |SplitDoc(d, q)|;
  }

  ghost predicate Longer(d: Doc, j: Doc) {
    exists y :: j == Append(d, y) && y.lit != ""
  }

  /** The parts joined are the text, or longer if there are three separators or more, and oddly many. */
  ghost predicate JoinsTo(ds: seq<Doc>, d: Doc, q: string, n: int) {
    ds != [] && if n < 3 || n % 2 == 0 then JoinDoc(ds, q) == d else Longer(d, JoinDoc(ds, q))
  }

  lemma RegularJoins(ds: seq<Doc>, d: Doc, q: string, n: nat)
    requires |ds| == n + 1 && q != "" && JoinDoc(ds, q) == d
    ensures JoinsTo(RegularDoc(ds, d, q), d, q, n)
  {
    RegularCases(ds, d, q, n);
    if n < 3 || n % 2 == 0 {
      OneJoin(d, q);
    } else {
      RepeatedJoin(ds, d, q);
    }
  }

  lemma RegularCases(ds: seq<Doc>, d: Doc, q: string, n: nat)
    requires |ds| == n + 1
    ensures var rs := RegularDoc(ds, d, q);
            if n < 3 || n % 2 == 0 then rs == [d] || rs == ds else rs == ds + [Repeated(ds, q)]
  {
  }

  lemma OneJoin(d: Doc, q: string)
    ensures JoinDoc([d], q) == d
  {
  }

  lemma RepeatedJoin(ds: seq<Doc>, d: Doc, q: string)
    requires ds != [] && q != "" && JoinDoc(ds, q) == d
    ensures Longer(d, JoinDoc(ds + [Repeated(ds, q)], q))
  {
    var e := Repeated(ds, q);
    JoinLast(ds, e, q);
    LitAppend(q, e);
  }

  lemma LitAppend(q: string, e: Doc)
    requires q != ""
    ensures Append(End(q), e).lit != ""
  {
  }

  /** Joining the parts of a split gives the text back. */
  lemma SplitJoins(d: Doc, q: string)
    requires Tame(d, false) && Ticks(q)
    ensures JoinDoc(SplitDoc(d, q), q) == d
  {
    var ds := SplitDoc(d, q);
    SplitTame(d, q, false);
    JoinTame(ds, q, false);
    TameIsSafe(JoinDoc(ds, q), false);
    TameIsSafe(d, false);
    TicksUncut(d, q);
    SplitDocTexts(d, q);
    JoinText(ds, q);
    JoinSplit(Text(d), q);
    TextInjective(JoinDoc(ds, q), d);
  }

  lemma {:induction false} JoinLast(ds: seq<Doc>, e: Doc, q: string)
    requires ds != []
    ensures JoinDoc(ds + [e], q) == Append(JoinDoc(ds, q), Append(End(q), e))
  {
    assert (ds + [e])[1..] == ds[1..] + [e];
    if |ds| > 1 {
      JoinLast(ds[1..], e, q);
      var j, x := JoinDoc(ds[1..], q), Append(End(q), e);
      AppendAssoc(End(q), j, x);
      AppendAssoc(ds[0], Append(End(q), j), x);
    }
  }

  /** A part repeated at the end adds nothing to what text or code may hold. */
  lemma {:induction false} RepeatedLast(ds: seq<Doc>, e: Doc, x: string)
    requires |ds| >= 2 && |ds| % 2 == 0 && Holes(e) == Holes(ds[|ds| - 1])
    ensures EvenHoles(ds + [e])[x] <= AllHoles(ds)[x]
    decreases |ds|
  {
    assert (ds + [e])[2..] == ds[2..] + [e];
    assert ds[1..][1..] == ds[2..];
    if |ds| > 2 {
      RepeatedLast(ds[2..], e, x);
    } else {
      assert ds[2..] + [e] == [e];
    }
  }

  /** Neither text nor blocks hold a placeholder more often than the whole did. */
  lemma FenceHoles(d: Doc, x: string)
    requires Tame(d, false)
    ensures EvenHoles(FencePartsDoc(d))[x] <= HoleCount(d, x)
    ensures AllHoles(Odds(FencePartsDoc(d)))[x] <= HoleCount(d, x)
  {
    SplitHoles(d, FENCE);
    RegularHoles(SplitDoc(d, FENCE), d, FENCE, x);
  }

  lemma RegularHoles(ds: seq<Doc>, d: Doc, q: string, x: string)
    requires ds != [] && AllHoles(ds) == multiset(Holes(d))
    ensures EvenHoles(RegularDoc(ds, d, q))[x] <= HoleCount(d, x)
    ensures AllHoles(Odds(RegularDoc(ds, d, q)))[x] <= HoleCount(d, x)
  {
    EvensAndOdds(ds);
    if |ds| >= 3 && |ds| % 2 == 0 {
      var e := Repeated(ds, q);
      HolesAppend(End(q), ds[|ds| - 1]);
      HolesAppend(End(""), Append(End(q), ds[|ds| - 1]));
      RepeatedLast(ds, e, x);
      OddsPush(ds, e);
    }
  }

  // ---- inline code ----

  function InlinePartsDoc(d: Doc): seq<Doc> {
    var ds := SplitDoc(d, TICK);
    if |ds| % 2 == 1 then ds else LastTwoGluedDoc(ds, TICK)
  }

  function LastTwoGluedDoc(ds: seq<Doc>, q: string): seq<Doc>
    requires |ds| >= 2
  {
    var n := |ds|;
    ds[..n - 2] + [Glued(ds[n - 2], q, ds[n - 1])]
  }

  lemma InlineTexts(d: Doc)
    requires Tame(d, false)
    ensures Texts(InlinePartsDoc(d)) == InlineParts(Text(d)) && |InlinePartsDoc(d)| % 2 == 1
  {
    TameIsSafe(d, false);
    TicksUncut(d, TICK);
    SplitDocTexts(d, TICK);
    PairedTexts(SplitDoc(d, TICK), Split(Text(d), TICK));
  }

  lemma PairedTexts(ds: seq<Doc>, ps: seq<string>)
    requires ds != [] && Texts(ds) == ps
    ensures Texts(if |ds| % 2 == 1 then ds else LastTwoGluedDoc(ds, TICK)) == (if |ps| % 2 == 1 then ps else LastTwoGlued(ps, TICK))
  {
    if |ds| % 2 == 0 {
      GluedTexts(ds, TICK);
    }
  }

  lemma InlineTame(d: Doc, strict: bool)
    requires Tame(d, strict)
    ensures AllTame(InlinePartsDoc(d), strict)
  {
    SplitTame(d, TICK, strict);
    PairedTame(SplitDoc(d, TICK), TICK, strict);
  }

  lemma PairedTame(ds: seq<Doc>, q: string, strict: bool)
    requires AllTame(ds, strict) && ds != [] && Ticks(q)
    ensures AllTame(if |ds| % 2 == 1 then ds else LastTwoGluedDoc(ds, q), strict)
  {
    if |ds| % 2 == 0 {
      LastTwoTame(ds, q, strict);
    }
  }

  lemma LastTwoTame(ds: seq<Doc>, q: string, strict: bool)
    requires AllTame(ds, strict) && |ds| >= 2 && Ticks(q)
    ensures AllTame(LastTwoGluedDoc(ds, q), strict)
  {
    TameGlued(ds[|ds| - 2], q, ds[|ds| - 1], strict);
  }

  lemma InlineJoins(d: Doc)
    requires Tame(d, false)
    ensures JoinDoc(InlinePartsDoc(d), TICK) == d
  {
    var ds := InlinePartsDoc(d);
    InlineTexts(d);
    InlineTame(d, false);
    JoinTame(ds, TICK, false);
    TameIsSafe(JoinDoc(ds, TICK), false);
    TameIsSafe(d, false);
    JoinText(ds, TICK);
    InlineJoin(Text(d));
    TextInjective(JoinDoc(ds, TICK), d);
  }

  /** Text and inline code share the placeholders out between them. */
  lemma InlineHoles(d: Doc, x: string)
    requires Tame(d, false)
    ensures EvenHoles(InlinePartsDoc(d))[x] + AllHoles(Odds(InlinePartsDoc(d)))[x] == HoleCount(d, x)
  {
    InlineTexts(d);
    InlineJoins(d);
    JoinHoles(InlinePartsDoc(d), TICK);
    EvensAndOdds(InlinePartsDoc(d));
  }

  // ---- the values the restore loops put back ----

  function WrapAll(codes: seq<Doc>, q: string): seq<Doc> {
    seq(|codes|, k requires 0 <= k < |codes| => Wrap(q, codes[k]))
  }

  lemma WrapText(q: string, d: Doc)
    ensures Text(Wrap(q, d)) == q + Text(d) + q
  {
    TextAppend(d, End(q));
    TextAppend(End(q), Append(d, End(q)));
    WeaveTwo(q, Text(d), q);
  }

  lemma WrapTexts(codes: seq<Doc>, q: string)
    ensures Texts(WrapAll(codes, q)) == Wrapped(Texts(codes), q)
  {
    forall k | 0 <= k < |codes| ensures Texts(WrapAll(codes, q))[k] == Wrapped(Texts(codes), q)[k] {
      WrapText(q, codes[k]);
    }
  }

  lemma WrapHoles(q: string, d: Doc)
    ensures Holes(Wrap(q, d)) == Holes(d)
  {
    HolesAppend(d, End(q));
    HolesAppend(End(q), Append(d, End(q)));
    assert Holes(d) + [] == Holes(d);
  }

  lemma {:induction false} WrapAllHoles(codes: seq<Doc>, q: string)
    ensures AllHoles(WrapAll(codes, q)) == AllHoles(codes)
  {
    if codes != [] {
      WrapHoles(q, codes[0]);
      assert WrapAll(codes, q)[1..] == WrapAll(codes[1..], q);
      WrapAllHoles(codes[1..], q);
    }
  }

  lemma {:induction false} MarkedAtEnd(d: Doc, q: string)
    requires Ticks(q)
    ensures MarkedEnd(Append(d, End(q)))
  {
    match d
    case End(l) =>
      assert (l + q)[|l|] == '`';
    case Node(_, _, r) => MarkedAtEnd(r, q);
  }

  lemma WrapTame(q: string, d: Doc)
    requires Ticks(q) && Tame(d, false)
    ensures Tame(Wrap(q, d), false)
  {
    TameGlued(d, q, End(""), false);
    AppendEmpty(End(q));
    TameGlued(End(""), q, Append(d, End(q)), false);
    AppendEmpty(Append(End(q), Append(d, End(q))));
  }

  lemma {:induction false} SafeRestEnd(d: Doc, q: string)
    requires SafeRest(d)
    ensures SafeRest(Append(d, End(q)))
  {
    match d
    case End(_) =>
    case Node(_, _, r) => SafeRestEnd(r, q);
  }

  /** Wrapping touches the first and the last literal only. */
  lemma SafeWrap(q: string, d: Doc)
    requires Safe(d)
    ensures Safe(Wrap(q, d))
  {
    if d.Node? {
      SafeRestEnd(d.rest, q);
    }
  }

  ghost predicate AllSafe(ds: seq<Doc>) {
    forall k :: 0 <= k < |ds| ==> Safe(ds[k])
  }

  /** Code in its backticks has marked ends, and no scar. */
  lemma WrapFramed(q: string, d: Doc)
    requires Ticks(q) && Tame(d, false)
    ensures Framed(Wrap(q, d)) && Clean(Wrap(q, d)) && !Scarred(Wrap(q, d))
  {
    WrapTame(q, d);
    TameIsSafe(Wrap(q, d), false);
    TameUnscarred(Wrap(q, d));
    AppendAssoc(End(q), d, End(q));
    MarkedAtEnd(Append(End(q), d), q);
    assert Wrap(q, d).lit[0] == '`';
  }

  lemma {:induction false} TameUnscarred(d: Doc)
    requires Tame(d, false)
    ensures !Scarred(d)
  {
    if d.Node? {
      TameUnscarred(d.rest);
      if Marked(d.hole) {
        MarkedNotBody(d.hole);
      }
      assert forall h :: h in Holes(d) ==> h == d.hole || h in Holes(d.rest);
    }
  }

  lemma CodesReplace(codes: seq<Doc>, q: string, t: Tag)
    requires Ticks(q) && AllTame(codes, false) && forall k: nat :: AllHoles(codes)[Body(t, k)] == 0
    ensures Replacements(WrapAll(codes, q), t)
  {
    forall k | 0 <= k < |codes| ensures var v := Wrap(q, codes[k]); Clean(v) && Framed(v) && FreeOf(v, t) && !Scarred(v) {
      WrapFramed(q, codes[k]);
      WrapHoles(q, codes[k]);
      HolesOfPart(codes, k);
    }
  }

  lemma WrapAllSafe(codes: seq<Doc>, q: string)
    requires AllSafe(codes)
    ensures AllSafe(WrapAll(codes, q))
  {
    forall k | 0 <= k < |codes| ensures Safe(WrapAll(codes, q)[k]) {
      SafeWrap(q, codes[k]);
    }
  }

  lemma TokensReplace(tokens: seq<string>)
    requires forall k :: 0 <= k < |tokens| ==> NulFree(tokens[k]) && Marked(tokens[k])
    ensures Replacements(Ends(tokens), ST)
  {
  }

  // ---- counting what a restore loop leaves ----

  lemma {:induction false} FilledCount(d: Doc, b: string, rep: Doc, x: string)
    requires HoleCount(d, b) >= 1
    ensures HoleCount(ReplaceHole(d, b, rep), x) + (if x == b then 1 else 0) == HoleCount(d, x) + HoleCount(rep, x)
  {
    match d
    case End(_) =>
    case Node(l, h, r) =>
      assert Holes(d) == [h] + Holes(r);
      if h == b {
        HolesAppend(rep, r);
        HolesAppend(End(l), Append(rep, r));
      } else {
        FilledCount(r, b, rep, x);
        assert Holes(ReplaceHole(d, b, rep)) == [h] + Holes(ReplaceHole(r, b, rep));
      }
  }

  /** If each placeholder of a kind stands exactly once, filling them trades them for what their values hold. */
  lemma {:induction false} HolesAfter(d: Doc, t: Tag, docs: seq<Doc>, i: nat, x: string)
    requires i <= |docs| && forall k :: i <= k < |docs| ==> HoleCount(d, Body(t, k)) == 1 && FreeOf(docs[k], t)
    ensures HoleCount(Subst(d, Env(t, docs, i)), x) + Numbered(t, i, |docs| - i)[x] == HoleCount(d, x) + AllHoles(docs[i..])[x]
    decreases |docs| - i
  {
    if i == |docs| {
      SubstNothing(d, map[]);
    } else {
      var b, d' := Body(t, i), ReplaceHole(d, Body(t, i), docs[i]);
      forall k | i < k < |docs| ensures HoleCount(d', Body(t, k)) == 1 && Body(t, k) != b {
        BodyInjective(t, k, t, i);
        FilledCount(d, b, docs[i], Body(t, k));
      }
      HolesAfter(d', t, docs, i + 1, x);
      FilledCount(d, b, docs[i], x);
      NumberedStep(t, i, |docs| - i, x);
      AllHolesStep(docs, i, x);
      FillFirst(d, t, docs, i);
    }
  }

  /** The same for the wrapped code parts of a text. */
  lemma CodesTraded(d: Doc, t: Tag, ds: seq<Doc>, q: string, x: string)
    requires Replacements(WrapAll(Odds(ds), q), t)
    requires forall k :: 0 <= k < |Odds(ds)| ==> HoleCount(d, Body(t, k)) == 1
    ensures HoleCount(Subst(d, Env(t, WrapAll(Odds(ds), q), 0)), x) + Numbered(t, 0, |ds| / 2)[x] ==
            HoleCount(d, x) + AllHoles(Odds(ds))[x]
  {
    var docs := WrapAll(Odds(ds), q);
    AllTraded(d, t, docs, x);
    OddsAt(ds);
    WrapAllHoles(Odds(ds), q);
  }

  lemma AllTraded(d: Doc, t: Tag, docs: seq<Doc>, x: string)
    requires Replacements(docs, t) && forall k :: 0 <= k < |docs| ==> HoleCount(d, Body(t, k)) == 1
    ensures HoleCount(Subst(d, Env(t, docs, 0)), x) + Numbered(t, 0, |docs|)[x] == HoleCount(d, x) + AllHoles(docs)[x]
  {
    assert forall k :: 0 <= k < |docs| ==> FreeOf(docs[k], t);
    HolesAfter(d, t, docs, 0, x);
    assert docs[0..] == docs;
  }

  lemma AllHolesStep(docs: seq<Doc>, i: nat, x: string)
    requires i < |docs|
    ensures AllHoles(docs[i..])[x] == HoleCount(docs[i], x) + AllHoles(docs[i + 1..])[x]
  {
    assert docs[i..][1..] == docs[i + 1..];
  }

  lemma FillFirst(d: Doc, t: Tag, docs: seq<Doc>, i: nat)
    requires i < |docs| && HoleCount(d, Body(t, i)) <= 1 && FreeOf(docs[i], t)
    ensures Subst(d, Env(t, docs, i)) == Subst(ReplaceHole(d, Body(t, i), docs[i]), Env(t, docs, i + 1))
  {
    EnvDomain(t, docs, i + 1);
    forall k | i < k < |docs| ensures Body(t, k) != Body(t, i) {
      BodyInjective(t, k, t, i);
    }
    SubstReplace(d, Body(t, i), docs[i], Env(t, docs, i + 1));
  }

  /** Values without placeholders just take theirs away. */
  lemma {:induction false} HolesGone(d: Doc, env: map<string, Doc>, x: string)
    requires forall h <- env :: env[h].End?
    ensures HoleCount(Subst(d, env), x) == if x in env then 0 else HoleCount(d, x)
  {
    match d
    case End(_) =>
    case Node(l, h, r) =>
      assert Holes(d) == [h] + Holes(r);
      HolesGone(r, env, x);
      if h in env {
        HolesAppend(env[h], Subst(r, env));
        HolesAppend(End(l), Append(env[h], Subst(r, env)));
      } else {
        assert Holes(Subst(d, env)) == [h] + Holes(Subst(r, env));
      }
  }

  // ---- extraction undone on texts with holes ----

  ghost predicate Maps(env: map<string, Doc>, t: Tag, docs: seq<Doc>) {
    forall k :: 0 <= k < |docs| ==> Body(t, k) in env && env[Body(t, k)] == docs[k]
  }

  lemma {:induction false} KnownFrom(ds: seq<Doc>, t: Tag, n: nat, docs: seq<Doc>, env: map<string, Doc>, q: string)
    requires |ds| % 2 == 1 && n <= |docs| && docs[n..] == WrapAll(Odds(ds), q)
    requires Maps(env, t, docs) && EvensClear(ds, env)
    ensures Known(ds, t, n, env, q)
    decreases |ds|
  {
    if |ds| >= 3 {
      NextCode(ds, n, docs, q);
      KnownFrom(ds[2..], t, n + 1, docs, env, q);
    }
  }

  /** No text part holds a placeholder that the environment knows. */
  predicate EvensClear(ds: seq<Doc>, env: map<string, Doc>) {
    ds != [] ==> (forall h :: h in Holes(ds[0]) ==> h !in env) && (|ds| >= 2 ==> EvensClear(ds[2..], env))
  }

  lemma {:induction false} ClearFromCounts(ds: seq<Doc>, env: map<string, Doc>)
    requires forall h <- env :: EvenHoles(ds)[h] == 0
    ensures EvensClear(ds, env)
    decreases |ds|
  {
    if ds != [] {
      forall h | h in Holes(ds[0]) ensures h !in env {
        assert HoleCount(ds[0], h) > 0;
        EvenAtLeast(ds, h);
      }
    }
    if |ds| >= 2 {
      forall h <- env ensures EvenHoles(ds[2..])[h] == 0 {
        EvenStep(ds, h);
      }
      ClearFromCounts(ds[2..], env);
    }
  }

  lemma EvenAtLeast(ds: seq<Doc>, h: string)
    requires ds != []
    ensures EvenHoles(ds)[h] >= HoleCount(ds[0], h)
  {
    if |ds| >= 2 {
      EvenStep(ds, h);
    }
  }

  lemma NextCode(ds: seq<Doc>, n: nat, docs: seq<Doc>, q: string)
    requires |ds| >= 2 && n <= |docs| && docs[n..] == WrapAll(Odds(ds), q)
    ensures n < |docs| && docs[n] == Wrap(q, ds[1]) && docs[n + 1..] == WrapAll(Odds(ds[2..]), q)
  {
    assert docs[n..][1..] == docs[n + 1..];
    WrapStep(ds[1], Odds(ds[2..]), q);
  }

  lemma WrapStep(d: Doc, codes: seq<Doc>, q: string)
    ensures WrapAll([d] + codes, q) == [Wrap(q, d)] + WrapAll(codes, q)
  {
  }

  /** Filling the placeholders of one kind with the wrapped codes restores the text they were taken from. */
  lemma CodesBack(ds: seq<Doc>, t: Tag, q: string)
    requires |ds| % 2 == 1 && forall k: nat :: EvenHoles(ds)[Body(t, k)] == 0
    ensures Subst(WeaveDoc(ds, t, 0), Env(t, WrapAll(Odds(ds), q), 0)) == JoinDoc(ds, q)
  {
    var docs := WrapAll(Odds(ds), q);
    assert docs[0..] == docs;
    EnvDomain(t, docs, 0);
    ClearFromCounts(ds, Env(t, docs, 0));
    KnownFrom(ds, t, 0, docs, Env(t, docs, 0), q);
    SubstWeave(ds, t, 0, Env(t, docs, 0), q);
  }

  // ---- substitutions in a row ----

  function Then(e1: map<string, Doc>, e2: map<string, Doc>): map<string, Doc> {
    e2 + map h | h in e1 :: Subst(e1[h], e2)
  }

  /** Two substitutions in a row are one. */
  lemma {:induction false} SubstThen(d: Doc, e1: map<string, Doc>, e2: map<string, Doc>)
    ensures Subst(Subst(d, e1), e2) == Subst(d, Then(e1, e2))
  {
    match d
    case End(_) =>
    case Node(l, h, r) =>
      SubstThen(r, e1, e2);
      if h in e1 {
        SubstAppend(End(l), Append(e1[h], Subst(r, e1)), e2);
        SubstAppend(e1[h], Subst(r, e1), e2);
      }
  }

  /** Substitutions that do not touch each other can change places. */
  lemma {:induction false} SubstSwap(d: Doc, e1: map<string, Doc>, e2: map<string, Doc>)
    requires e1.Keys !! e2.Keys && forall h <- e1 :: e1[h].End?
    requires forall h <- e2 :: forall g :: g in Holes(e2[h]) ==> g !in e1
    ensures Subst(Subst(d, e1), e2) == Subst(Subst(d, e2), e1)
  {
    match d
    case End(_) =>
    case Node(l, h, r) =>
      SubstSwap(r, e1, e2);
      if h in e1 {
        SubstFilled(l, e1[h], Subst(r, e1), e2);
      } else if h in e2 {
        SubstFilled(l, e2[h], Subst(r, e2), e1);
      }
  }

  lemma SubstFilled(l: string, v: Doc, r: Doc, env: map<string, Doc>)
    requires forall g :: g in Holes(v) ==> g !in env
    ensures Subst(Append(End(l), Append(v, r)), env) == Append(End(l), Append(v, Subst(r, env)))
  {
    SubstAppend(End(l), Append(v, r), env);
    SubstAppend(v, r, env);
    SubstNothing(v, env);
  }
}
