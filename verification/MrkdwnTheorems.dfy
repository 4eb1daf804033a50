/** Protection: whatever the rewriting does around the placeholders, tokens and code come back verbatim. */
module MrkdwnTheorems {
  import opened Search
  import opened Placeholders
  import opened Restoring
  import opened Extraction
  import opened DocExtraction
  import opened TameTexts
  import opened CodeParts
  import opened Escape
  import opened Mrkdwn

  /** A rewritten text in which each placeholder still stands exactly once, in any order and with anything around it. */
  ghost predicate Kept(ps: seq<string>, d: Doc) {
    Clean(d) && multiset(Holes(d)) == multiset(Holes(Uncoded(ps)))
  }

  /** The input: a text cut at its tokens, without NUL. */
  ghost predicate Input(ps: seq<string>) {
    TokenParts(ps) && PlainTexts(ps, false)
  }

  // ---- when a literal is taken for a placeholder ----

  /** The values that the loop of a kind puts back. */
  function Vals(ps: seq<string>, t: Tag): seq<Doc> {
    match t
    case ST => Ends(Odds(ps))
    case IC => Codes(ps)
    case CB => Blocks(ps)
  }

  /** What has been put back by the time the loops come to placeholder `k` of kind `t`. */
  function FilledBefore(ps: seq<string>, t: Tag, k: nat): map<string, Doc>
    requires k <= |Vals(ps, t)|
  {
    var now := Env(t, Vals(ps, t)[..k], 0);
    match t
    case ST => now
    case IC => Then(TokenEnv(ps), now)
    case CB => Then(Then(TokenEnv(ps), CodeEnv(ps)), now)
  }

  /**
   No whole literal of the text that is the inside of a placeholder stands between two placeholders that are
   still there when that placeholder's turn comes, and before it; nor does one inside a value already put back.
   */
  predicate NeverMistaken(ps: seq<string>, d: Doc) {
    forall t: Tag, k: nat :: k < |Vals(ps, t)| ==> !Misread(d, FilledBefore(ps, t, k), Body(t, k), false)
  }

  /** In no inline code and in no block is a whole literal between two token placeholders, or blocks, a body itself. */
  ghost predicate SafeCode(ps: seq<string>) {
    AllSafe(Odds(InlineSplit(ps))) && AllSafe(Odds(FenceSplit(ps)))
  }

  /** Rewriting nothing keeps the placeholders. */
  lemma UnchangedIsKept(ps: seq<string>)
    requires Input(ps)
    ensures Kept(ps, Uncoded(ps))
  {
    StagesTame(ps, false);
    TameIsSafe(Uncoded(ps), false);
  }

  /** A text in which nothing at all begins like the inside of a placeholder is admitted, and its code is safe. */
  lemma StrictSafe(ps: seq<string>)
    requires PlainTexts(ps, true)
    ensures PlainTexts(ps, false) && SafeCode(ps) && Safe(Uncoded(ps))
  {
    StagesTame(ps, true);
    StrictIsPlain(ps);
    OddsTame(InlineSplit(ps), true);
    OddsTame(FenceSplit(ps), true);
    TameIsSafe(Uncoded(ps), true);
    forall k | 0 <= k < |Odds(InlineSplit(ps))| ensures Safe(Odds(InlineSplit(ps))[k]) {
      TameIsSafe(Odds(InlineSplit(ps))[k], true);
    }
    forall k | 0 <= k < |Odds(FenceSplit(ps))| ensures Safe(Odds(FenceSplit(ps))[k]) {
      TameIsSafe(Odds(FenceSplit(ps))[k], true);
    }
  }

  lemma {:induction false} StrictIsPlain(ps: seq<string>)
    requires PlainTexts(ps, true)
    ensures PlainTexts(ps, false)
    decreases |ps|
  {
    if |ps| >= 2 {
      StrictIsPlain(ps[2..]);
    }
  }

  // ---- the values that come back ----

  lemma {:induction false} TokensMarked(ps: seq<string>)
    requires TokenParts(ps)
    ensures forall k :: 0 <= k < |Odds(ps)| ==> NulFree(Odds(ps)[k]) && Marked(Odds(ps)[k])
    decreases |ps|
  {
    if |ps| >= 3 {
      TokensMarked(ps[2..]);
    }
  }

  lemma TokenValues(ps: seq<string>)
    requires TokenParts(ps)
    ensures Replacements(Ends(Odds(ps)), ST)
  {
    TokensMarked(ps);
    TokensReplace(Odds(ps));
  }

  lemma OddsTame(ds: seq<Doc>, strict: bool)
    requires AllTame(ds, strict)
    ensures AllTame(Odds(ds), strict)
  {
    OddsAt(ds);
  }

  lemma CodeValues(ps: seq<string>)
    requires PlainTexts(ps, false)
    ensures Replacements(Codes(ps), IC)
  {
    StagesTame(ps, false);
    OddsTame(InlineSplit(ps), false);
    forall k: nat ensures AllHoles(Odds(InlineSplit(ps)))[Body(IC, k)] == 0 {
      NoCodeInside(ps, k);
    }
    CodesReplace(Odds(InlineSplit(ps)), TICK, IC);
  }

  lemma NoCodeInside(ps: seq<string>, k: nat)
    requires PlainTexts(ps, false)
    ensures AllHoles(Odds(InlineSplit(ps)))[Body(IC, k)] == 0 && EvenHoles(InlineSplit(ps))[Body(IC, k)] == 0
  {
    BodyCounts(ps, IC, k);
    UncodedCount(ps, Body(IC, k));
  }

  lemma BlockValues(ps: seq<string>)
    requires PlainTexts(ps, false)
    ensures Replacements(Blocks(ps), CB)
  {
    StagesTame(ps, false);
    OddsTame(FenceSplit(ps), false);
    forall k: nat ensures AllHoles(Odds(FenceSplit(ps)))[Body(CB, k)] == 0 {
      NoBlockInBlock(ps, k);
    }
    CodesReplace(Odds(FenceSplit(ps)), FENCE, CB);
  }

  lemma NoBlockInBlock(ps: seq<string>, k: nat)
    requires PlainTexts(ps, false)
    ensures AllHoles(Odds(FenceSplit(ps)))[Body(CB, k)] == 0
  {
    BodyCounts(ps, CB, k);
  }

  lemma AllValues(ps: seq<string>, t: Tag)
    requires Input(ps)
    ensures Replacements(Vals(ps, t), t)
  {
    match t
    case ST => TokenValues(ps);
    case IC => CodeValues(ps);
    case CB => BlockValues(ps);
  }

  // ---- one restore loop at a time ----

  lemma InTokenEnv(ps: seq<string>, x: string)
    ensures x in TokenEnv(ps) <==> exists k :: 0 <= k < |ps| / 2 && x == Body(ST, k)
    ensures forall h <- TokenEnv(ps) :: TokenEnv(ps)[h].End?
  {
    OddsAt(ps);
    EnvDomain(ST, Ends(Odds(ps)), 0);
  }

  /** After the tokens: their placeholders are gone, the others untouched. */
  lemma AfterTokens(ps: seq<string>, d: Doc, x: string)
    requires Input(ps) && Kept(ps, d)
    ensures HoleCount(Subst(d, TokenEnv(ps)), x) == if x in TokenEnv(ps) then 0 else HoleCount(Uncoded(ps), x)
  {
    InTokenEnv(ps, x);
    HolesGone(d, TokenEnv(ps), x);
  }

  lemma OneTokenEach(ps: seq<string>, d: Doc)
    requires Input(ps) && Kept(ps, d)
    ensures AtMostOnce(d, ST, |Vals(ps, ST)|)
  {
    OddsAt(ps);
    forall k | 0 <= k < |Odds(ps)| ensures HoleCount(d, Body(ST, k)) <= 1 {
      BodyCounts(ps, ST, k);
    }
  }

  lemma OneCodeEach(ps: seq<string>, d: Doc, k: nat)
    requires Input(ps) && Kept(ps, d) && k < |Codes(ps)|
    ensures HoleCount(Subst(d, TokenEnv(ps)), Body(IC, k)) == 1
  {
    OddsAt(InlineSplit(ps));
    BodyCounts(ps, IC, k);
    AfterTokens(ps, d, Body(IC, k));
    NotAToken(ps, IC, k);
  }

  lemma NotAToken(ps: seq<string>, t: Tag, k: nat)
    requires t != ST
    ensures Body(t, k) !in TokenEnv(ps)
  {
    InTokenEnv(ps, Body(t, k));
    forall j | 0 <= j < |ps| / 2 ensures Body(t, k) != Body(ST, j) {
      BodyInjective(t, k, ST, j);
    }
  }

  /** After the inline codes: their placeholders are traded for those inside them. */
  lemma AfterCodes(ps: seq<string>, d: Doc, x: string)
    requires Input(ps) && Kept(ps, d)
    ensures var d1 := Subst(d, TokenEnv(ps));
            HoleCount(Subst(d1, CodeEnv(ps)), x) + Numbered(IC, 0, |InlineSplit(ps)| / 2)[x] ==
            HoleCount(d1, x) + AllHoles(Odds(InlineSplit(ps)))[x]
  {
    CodeValues(ps);
    forall k | 0 <= k < |Codes(ps)| ensures HoleCount(Subst(d, TokenEnv(ps)), Body(IC, k)) == 1 {
      OneCodeEach(ps, d, k);
    }
    CodesTraded(Subst(d, TokenEnv(ps)), IC, InlineSplit(ps), TICK, x);
  }

  /** Every block's placeholder stands exactly once by now, even if it was inside an inline code. */
  lemma OneBlockEach(ps: seq<string>, d: Doc, k: nat)
    requires Input(ps) && Kept(ps, d) && k < |Blocks(ps)|
    ensures HoleCount(Subst(Subst(d, TokenEnv(ps)), CodeEnv(ps)), Body(CB, k)) == 1
  {
    var b := Body(CB, k);
    OddsAt(FenceSplit(ps));
    BodyCounts(ps, CB, k);
    UncodedCount(ps, b);
    AfterTokens(ps, d, b);
    NotAToken(ps, CB, k);
    AfterCodes(ps, d, b);
    NumberedCount(IC, 0, |InlineSplit(ps)| / 2, CB, k);
  }

  /** The three substitutions the restore loops amount to. */
  function Filled(ps: seq<string>, d: Doc): Doc {
    Subst(Subst(Subst(d, TokenEnv(ps)), CodeEnv(ps)), BlockEnv(ps))
  }

  lemma AfterBlocks(ps: seq<string>, d: Doc, x: string)
    requires Input(ps) && Kept(ps, d)
    ensures var d2 := Subst(Subst(d, TokenEnv(ps)), CodeEnv(ps));
            HoleCount(Filled(ps, d), x) + Numbered(CB, 0, |FenceSplit(ps)| / 2)[x] ==
            HoleCount(d2, x) + AllHoles(Odds(FenceSplit(ps)))[x]
  {
    BlockValues(ps);
    forall k | 0 <= k < |Blocks(ps)|
      ensures HoleCount(Subst(Subst(d, TokenEnv(ps)), CodeEnv(ps)), Body(CB, k)) == 1
    {
      OneBlockEach(ps, d, k);
    }
    CodesTraded(Subst(Subst(d, TokenEnv(ps)), CodeEnv(ps)), CB, FenceSplit(ps), FENCE, x);
  }

  // ---- the three loops ----

  /** What the three loops make of a text with holes, mistakes included. */
  function Restored(ps: seq<string>, d: Doc): Doc {
    RestoreDoc(RestoreDoc(RestoreDoc(d, ST, Vals(ps, ST), 0), IC, Vals(ps, IC), 0), CB, Vals(ps, CB), 0)
  }

  /** The program's loops, exactly, on every text with holes. */
  lemma RestoredText(ps: seq<string>, d: Doc)
    requires Input(ps) && Clean(d)
    ensures RestoreAll(Protect(ps), Text(d)) == Text(Restored(ps, d)) && Clean(Restored(ps, d))
  {
    StageTexts(ps);
    TextsEnds(Odds(ps));
    WrapTexts(Odds(InlineSplit(ps)), TICK);
    WrapTexts(Odds(FenceSplit(ps)), FENCE);
    AllValues(ps, ST);
    AllValues(ps, IC);
    AllValues(ps, CB);
    var d1 := RestoreDoc(d, ST, Vals(ps, ST), 0);
    RestoreText(d, ST, Vals(ps, ST), 0);
    RestoreText(d1, IC, Vals(ps, IC), 0);
    RestoreText(RestoreDoc(d1, IC, Vals(ps, IC), 0), CB, Vals(ps, CB), 0);
  }

  /** What the loop of a kind starts from if all went well. */
  function Before(ps: seq<string>, d: Doc, t: Tag): Doc {
    match t
    case ST => d
    case IC => Subst(d, TokenEnv(ps))
    case CB => Subst(Subst(d, TokenEnv(ps)), CodeEnv(ps))
  }

  predicate SmoothFor(ps: seq<string>, d: Doc, t: Tag) {
    Smooth(Before(ps, d, t), t, Vals(ps, t))
  }

  predicate AllSmooth(ps: seq<string>, d: Doc) {
    SmoothFor(ps, d, ST) && SmoothFor(ps, d, IC) && SmoothFor(ps, d, CB)
  }

  lemma KeptUnscarred(ps: seq<string>, d: Doc)
    requires Input(ps) && Kept(ps, d)
    ensures !Scarred(d)
  {
    StagesTame(ps, false);
    TameUnscarred(Uncoded(ps));
    forall h | h in Holes(d) ensures !Marked(h) {
      assert h in multiset(Holes(d));
      assert h in Holes(Uncoded(ps));
    }
  }

  lemma AfterFirst(ps: seq<string>, d: Doc)
    requires Input(ps) && Kept(ps, d)
    ensures var d1, r1 := Subst(d, TokenEnv(ps)), RestoreDoc(d, ST, Vals(ps, ST), 0);
            Clean(d1) && !Scarred(d1) && if Smooth(d, ST, Vals(ps, ST)) then r1 == d1 else Scarred(r1)
  {
    AllValues(ps, ST);
    OneTokenEach(ps, d);
    KeptUnscarred(ps, d);
    RestoredOrScarred(d, ST, Vals(ps, ST));
  }

  lemma AfterSecond(ps: seq<string>, d: Doc)
    requires Input(ps) && Kept(ps, d)
    ensures var d1 := Subst(d, TokenEnv(ps));
            var d2, r2 := Subst(d1, CodeEnv(ps)), RestoreDoc(d1, IC, Vals(ps, IC), 0);
            Clean(d2) && !Scarred(d2) && if Smooth(d1, IC, Vals(ps, IC)) then r2 == d2 else Scarred(r2)
  {
    AllValues(ps, IC);
    AfterFirst(ps, d);
    forall k | 0 <= k < |Codes(ps)| ensures HoleCount(Subst(d, TokenEnv(ps)), Body(IC, k)) <= 1 {
      OneCodeEach(ps, d, k);
    }
    RestoredOrScarred(Subst(d, TokenEnv(ps)), IC, Vals(ps, IC));
  }

  lemma AfterThird(ps: seq<string>, d: Doc)
    requires Input(ps) && Kept(ps, d)
    ensures var d2 := Subst(Subst(d, TokenEnv(ps)), CodeEnv(ps));
            var d3, r3 := Filled(ps, d), RestoreDoc(d2, CB, Vals(ps, CB), 0);
            Clean(d3) && !Scarred(d3) && if Smooth(d2, CB, Vals(ps, CB)) then r3 == d3 else Scarred(r3)
  {
    AllValues(ps, CB);
    AfterSecond(ps, d);
    forall k | 0 <= k < |Blocks(ps)|
      ensures HoleCount(Subst(Subst(d, TokenEnv(ps)), CodeEnv(ps)), Body(CB, k)) <= 1
    {
      OneBlockEach(ps, d, k);
    }
    RestoredOrScarred(Subst(Subst(d, TokenEnv(ps)), CodeEnv(ps)), CB, Vals(ps, CB));
  }

  /** The loops are the three substitutions exactly if all is smooth; otherwise they leave a scar. */
  lemma FilledOrScarred(ps: seq<string>, d: Doc)
    requires Input(ps) && Kept(ps, d)
    ensures Clean(Filled(ps, d)) && !Scarred(Filled(ps, d))
    ensures if AllSmooth(ps, d) then Restored(ps, d) == Filled(ps, d) else Scarred(Restored(ps, d))
  {
    AfterFirst(ps, d);
    AfterSecond(ps, d);
    AfterThird(ps, d);
    AllValues(ps, IC);
    AllValues(ps, CB);
    var d1, r1 := Subst(d, TokenEnv(ps)), RestoreDoc(d, ST, Vals(ps, ST), 0);
    if !Smooth(d, ST, Vals(ps, ST)) {
      ScarStays(r1, IC, Vals(ps, IC), 0);
      ScarStays(RestoreDoc(r1, IC, Vals(ps, IC), 0), CB, Vals(ps, CB), 0);
    } else if !Smooth(d1, IC, Vals(ps, IC)) {
      ScarStays(RestoreDoc(d1, IC, Vals(ps, IC), 0), CB, Vals(ps, CB), 0);
    }
  }

  // ---- smooth means never mistaken ----

  lemma BeforeFilled(ps: seq<string>, d: Doc, t: Tag, k: nat)
    requires k <= |Vals(ps, t)|
    ensures FilledTo(Before(ps, d, t), t, Vals(ps, t), k) == Subst(d, FilledBefore(ps, t, k))
  {
    var now := Env(t, Vals(ps, t)[..k], 0);
    match t
    case ST =>
    case IC => SubstThen(d, TokenEnv(ps), now);
    case CB =>
      SubstThen(d, TokenEnv(ps), CodeEnv(ps));
      SubstThen(d, Then(TokenEnv(ps), CodeEnv(ps)), now);
  }

  ghost predicate AllFramed(env: map<string, Doc>) {
    forall h <- env :: Framed(env[h])
  }

  lemma EnvFramed(t: Tag, docs: seq<Doc>, k: nat)
    requires k <= |docs| && Replacements(docs, t)
    ensures AllFramed(Env(t, docs[..k], 0))
  {
    EnvDomain(t, docs[..k], 0);
  }

  lemma ThenFramed(e1: map<string, Doc>, e2: map<string, Doc>)
    requires AllFramed(e1) && AllFramed(e2)
    ensures AllFramed(Then(e1, e2))
  {
    forall h | h in e1 ensures Framed(Subst(e1[h], e2)) {
      SubstFramed(e1[h], e2);
    }
  }

  lemma WholeEnvFramed(t: Tag, docs: seq<Doc>)
    requires Replacements(docs, t)
    ensures AllFramed(Env(t, docs, 0))
  {
    EnvFramed(t, docs, |docs|);
    assert docs[..|docs|] == docs;
  }

  lemma FilledFramed(ps: seq<string>, t: Tag, k: nat)
    requires Input(ps) && k <= |Vals(ps, t)|
    ensures AllFramed(FilledBefore(ps, t, k))
  {
    AllValues(ps, t);
    EnvFramed(t, Vals(ps, t), k);
    var now := Env(t, Vals(ps, t)[..k], 0);
    if t != ST {
      AllValues(ps, ST);
      WholeEnvFramed(ST, Vals(ps, ST));
    }
    match t
    case ST =>
    case IC => ThenFramed(TokenEnv(ps), now);
    case CB =>
      AllValues(ps, IC);
      WholeEnvFramed(IC, Vals(ps, IC));
      ThenFramed(TokenEnv(ps), CodeEnv(ps));
      ThenFramed(Then(TokenEnv(ps), CodeEnv(ps)), now);
  }

  lemma MistakenAt(ps: seq<string>, d: Doc, t: Tag, k: nat)
    requires Input(ps) && k < |Vals(ps, t)|
    ensures Mistaken(FilledTo(Before(ps, d, t), t, Vals(ps, t), k), Body(t, k)) <==>
            Misread(d, FilledBefore(ps, t, k), Body(t, k), false)
  {
    BeforeFilled(ps, d, t, k);
    FilledFramed(ps, t, k);
    BodyUnmarked(t, k);
    MisreadIsMistaken(d, FilledBefore(ps, t, k), Body(t, k), false);
  }

  lemma SmoothIsNeverMistaken(ps: seq<string>, d: Doc)
    requires Input(ps)
    ensures AllSmooth(ps, d) <==> NeverMistaken(ps, d)
  {
    forall t: Tag
      ensures SmoothFor(ps, d, t) <==>
              forall k: nat :: k < |Vals(ps, t)| ==> !Misread(d, FilledBefore(ps, t, k), Body(t, k), false)
    {
      SmoothAt(ps, d, t);
    }
    EachKind(ps, d);
  }

  lemma SmoothAt(ps: seq<string>, d: Doc, t: Tag)
    requires Input(ps)
    ensures SmoothFor(ps, d, t) <==>
            forall k: nat :: k < |Vals(ps, t)| ==> !Misread(d, FilledBefore(ps, t, k), Body(t, k), false)
  {
    forall k: nat | k < |Vals(ps, t)|
      ensures Mistaken(FilledTo(Before(ps, d, t), t, Vals(ps, t), k), Body(t, k)) <==>
              Misread(d, FilledBefore(ps, t, k), Body(t, k), false)
    {
      MistakenAt(ps, d, t, k);
    }
  }

  lemma EachKind(ps: seq<string>, d: Doc)
    ensures AllSmooth(ps, d) <==> forall t: Tag :: SmoothFor(ps, d, t)
  {
    if AllSmooth(ps, d) {
      forall t: Tag ensures SmoothFor(ps, d, t) {
        match t
        case ST =>
        case IC =>
        case CB =>
      }
    }
  }

  // ---- texts in which nothing can be mistaken ----

  lemma SafeLoop(d: Doc, t: Tag, docs: seq<Doc>)
    requires Safe(d) && Replacements(docs, t) && AllSafe(docs)
    ensures Smooth(d, t, docs) && Safe(Subst(d, Env(t, docs, 0)))
  {
    forall k | 0 <= k <= |docs| ensures Safe(FilledTo(d, t, docs, k)) {
      EnvDomain(t, docs[..k], 0);
      SubstSafe(d, Env(t, docs[..k], 0));
    }
    assert docs[..|docs|] == docs && Safe(FilledTo(d, t, docs, |docs|));
    forall k | 0 <= k < |docs| ensures !Mistaken(FilledTo(d, t, docs, k), Body(t, k)) {
      SafeIsUnmistaken(FilledTo(d, t, docs, k), Body(t, k));
    }
  }

  /** If no whole literal between two placeholders is the inside of one, in the text and in its code, nothing is mistaken. */
  lemma SafeIsNeverMistaken(ps: seq<string>, d: Doc)
    requires Input(ps) && Safe(d) && SafeCode(ps)
    ensures NeverMistaken(ps, d)
  {
    var d1 := Subst(d, TokenEnv(ps));
    AllValues(ps, ST);
    AllValues(ps, IC);
    AllValues(ps, CB);
    WrapAllSafe(Odds(InlineSplit(ps)), TICK);
    WrapAllSafe(Odds(FenceSplit(ps)), FENCE);
    SafeLoop(d, ST, Vals(ps, ST));
    SafeLoop(d1, IC, Vals(ps, IC));
    SafeLoop(Subst(d1, CodeEnv(ps)), CB, Vals(ps, CB));
    SmoothIsNeverMistaken(ps, d);
  }

  /** A text in which nothing at all begins like the inside of a placeholder meets all these conditions. */
  lemma StrictInput(ps: seq<string>)
    requires TokenParts(ps) && PlainTexts(ps, true)
    ensures Input(ps) && NeverMistaken(ps, Uncoded(ps))
  {
    StrictSafe(ps);
    SafeIsNeverMistaken(ps, Uncoded(ps));
  }

  // ---- main results ----

  /** How often a token was taken out of code rather than out of text. */
  function InCode(ps: seq<string>, k: nat): nat {
    AllHoles(Odds(InlineSplit(ps)))[Body(ST, k)] + AllHoles(Odds(FenceSplit(ps)))[Body(ST, k)]
  }

  /** What is left in the output: the placeholders of the tokens in code, and no other. */
  lemma LeftOver(ps: seq<string>, d: Doc, x: string)
    requires Input(ps) && Kept(ps, d)
    ensures forall k :: 0 <= k < |ps| / 2 && x == Body(ST, k) ==> HoleCount(Filled(ps, d), x) == InCode(ps, k)
    ensures x !in TokenEnv(ps) ==> HoleCount(Filled(ps, d), x) == 0
  {
    if x in TokenEnv(ps) {
      forall k | 0 <= k < |ps| / 2 && x == Body(ST, k) ensures HoleCount(Filled(ps, d), x) == InCode(ps, k) {
        TokenLeft(ps, d, k);
      }
    } else {
      InTokenEnv(ps, x);
      OthersGone(ps, d, x);
    }
  }

  lemma TokenLeft(ps: seq<string>, d: Doc, k: nat)
    requires Input(ps) && Kept(ps, d) && k < |ps| / 2
    ensures HoleCount(Filled(ps, d), Body(ST, k)) == InCode(ps, k)
  {
    var x := Body(ST, k);
    AfterTokens(ps, d, x);
    AfterCodes(ps, d, x);
    AfterBlocks(ps, d, x);
    InTokenEnv(ps, x);
    NumberedCount(IC, 0, |InlineSplit(ps)| / 2, ST, k);
    NumberedCount(CB, 0, |FenceSplit(ps)| / 2, ST, k);
  }

  lemma OthersGone(ps: seq<string>, d: Doc, x: string)
    requires Input(ps) && Kept(ps, d) && x !in TokenEnv(ps)
    ensures HoleCount(Filled(ps, d), x) == 0
  {
    AfterTokens(ps, d, x);
    AfterCodes(ps, d, x);
    AfterBlocks(ps, d, x);
    UncodedCount(ps, x);
    UnfencedCount(ps, x);
    NotNumbered(ps, x);
  }

  lemma NotNumbered(ps: seq<string>, x: string)
    requires x !in TokenEnv(ps)
    ensures Numbered(ST, 0, |ps| / 2)[x] == 0
  {
    InTokenEnv(ps, x);
    NumberedBodies(ST, 0, |ps| / 2);
  }

  ghost predicate NoTokenInCode(ps: seq<string>) {
    forall k :: 0 <= k < |ps| / 2 ==> InCode(ps, k) == 0
  }

  lemma NulFreeText(d: Doc)
    requires Clean(d)
    ensures NulFree(Text(d)) <==> d.End?
  {
    if d.Node? {
      assert Text(d)[|d.lit|] == NUL;
    }
  }

  lemma NoHoles(d: Doc)
    ensures d.End? <==> forall x :: HoleCount(d, x) == 0
  {
    if d.Node? {
      assert d.hole in Holes(d);
      assert HoleCount(d, d.hole) > 0;
    }
  }

  /**
   For every rewriting that keeps the placeholders: the output is the rewritten text with every placeholder
   replaced by its value exactly if no literal is ever mistaken for one, and it is free of NUL exactly if
   besides no token stands inside code.
   */
  lemma JointProtection(ps: seq<string>, d: Doc)
    requires Input(ps) && Kept(ps, d)
    ensures var out := RestoreAll(Protect(ps), Text(d));
            && (out == Text(Filled(ps, d)) <==> NeverMistaken(ps, d))
            && (NulFree(out) <==> NoTokenInCode(ps) && NeverMistaken(ps, d))
  {
    var r, f := Restored(ps, d), Filled(ps, d);
    RestoredText(ps, d);
    FilledOrScarred(ps, d);
    SmoothIsNeverMistaken(ps, d);
    AllFilled(ps, d);
    NulFreeText(r);
    if Text(r) == Text(f) {
      TextInjective(r, f);
    }
  }

  lemma AllFilled(ps: seq<string>, d: Doc)
    requires Input(ps) && Kept(ps, d)
    ensures Filled(ps, d).End? <==> NoTokenInCode(ps)
  {
    NoHoles(Filled(ps, d));
    if NoTokenInCode(ps) {
      forall x ensures HoleCount(Filled(ps, d), x) == 0 {
        NoneLeft(ps, d, x);
      }
    } else {
      var k :| 0 <= k < |ps| / 2 && InCode(ps, k) != 0;
      LeftOver(ps, d, Body(ST, k));
    }
  }

  lemma NoneLeft(ps: seq<string>, d: Doc, x: string)
    requires Input(ps) && Kept(ps, d) && NoTokenInCode(ps)
    ensures HoleCount(Filled(ps, d), x) == 0
  {
    LeftOver(ps, d, x);
    InTokenEnv(ps, x);
  }

  /** One simultaneous substitution does the work of the three loops. */
  function Values(ps: seq<string>): map<string, Doc> {
    Then(Then(TokenEnv(ps), CodeEnv(ps)), BlockEnv(ps))
  }

  lemma FilledAtOnce(ps: seq<string>, d: Doc)
    ensures Filled(ps, d) == Subst(d, Values(ps))
  {
    SubstThen(d, TokenEnv(ps), CodeEnv(ps));
    SubstThen(d, Then(TokenEnv(ps), CodeEnv(ps)), BlockEnv(ps));
  }

  predicate Holds(env: map<string, Doc>, b: string, v: Doc) {
    b in env && env[b] == v
  }

  /** The values: tokens as they were, codes and blocks between their backticks, blocks inside inline code included. */
  lemma ValuesVerbatim(ps: seq<string>)
    requires Input(ps)
    ensures forall k :: 0 <= k < |ps| / 2 ==> Holds(Values(ps), Body(ST, k), End(ps[2 * k + 1]))
    ensures var cs := InlineSplit(ps);
            forall k :: 0 <= k < |cs| / 2 ==> Holds(Values(ps), Body(IC, k), Subst(Wrap(TICK, cs[2 * k + 1]), BlockEnv(ps)))
    ensures var bs := FenceSplit(ps);
            forall k :: 0 <= k < |bs| / 2 ==> Holds(Values(ps), Body(CB, k), Wrap(FENCE, bs[2 * k + 1]))
  {
    forall k | 0 <= k < |ps| / 2 ensures Holds(Values(ps), Body(ST, k), End(ps[2 * k + 1])) {
      TokenValue(ps, k);
    }
    forall k | 0 <= k < |InlineSplit(ps)| / 2
      ensures Holds(Values(ps), Body(IC, k), Subst(Wrap(TICK, InlineSplit(ps)[2 * k + 1]), BlockEnv(ps)))
    {
      CodeValue(ps, k);
    }
    forall k | 0 <= k < |FenceSplit(ps)| / 2 ensures Holds(Values(ps), Body(CB, k), Wrap(FENCE, FenceSplit(ps)[2 * k + 1])) {
      BlockValue(ps, k);
    }
  }

  lemma ThenHolds(e1: map<string, Doc>, e2: map<string, Doc>, b: string, v: Doc)
    ensures Holds(e1, b, v) ==> Holds(Then(e1, e2), b, Subst(v, e2))
    ensures b !in e1 && Holds(e2, b, v) ==> Holds(Then(e1, e2), b, v)
    ensures b !in e1 && b !in e2 ==> b !in Then(e1, e2)
  {
  }

  lemma EnvHolds(t: Tag, docs: seq<Doc>, k: nat)
    requires k < |docs|
    ensures Holds(Env(t, docs, 0), Body(t, k), docs[k])
  {
    EnvDomain(t, docs, 0);
  }

  lemma TokenValue(ps: seq<string>, k: nat)
    requires k < |ps| / 2
    ensures Holds(Values(ps), Body(ST, k), End(ps[2 * k + 1]))
  {
    var b, v := Body(ST, k), End(ps[2 * k + 1]);
    OddsAt(ps);
    EnvHolds(ST, Ends(Odds(ps)), k);
    ThenHolds(TokenEnv(ps), CodeEnv(ps), b, v);
    ThenHolds(Then(TokenEnv(ps), CodeEnv(ps)), BlockEnv(ps), b, v);
  }

  lemma CodeValue(ps: seq<string>, k: nat)
    requires k < |InlineSplit(ps)| / 2
    ensures Holds(Values(ps), Body(IC, k), Subst(Wrap(TICK, InlineSplit(ps)[2 * k + 1]), BlockEnv(ps)))
  {
    var b, v := Body(IC, k), Wrap(TICK, InlineSplit(ps)[2 * k + 1]);
    OddsAt(InlineSplit(ps));
    EnvHolds(IC, Codes(ps), k);
    NotAToken(ps, IC, k);
    ThenHolds(TokenEnv(ps), CodeEnv(ps), b, v);
    ThenHolds(Then(TokenEnv(ps), CodeEnv(ps)), BlockEnv(ps), b, v);
  }

  lemma BlockValue(ps: seq<string>, k: nat)
    requires k < |FenceSplit(ps)| / 2
    ensures Holds(Values(ps), Body(CB, k), Wrap(FENCE, FenceSplit(ps)[2 * k + 1]))
  {
    var b, v := Body(CB, k), Wrap(FENCE, FenceSplit(ps)[2 * k + 1]);
    OddsAt(FenceSplit(ps));
    EnvHolds(CB, Blocks(ps), k);
    NotAToken(ps, CB, k);
    NotACode(ps, CB, k);
    ThenHolds(TokenEnv(ps), CodeEnv(ps), b, v);
    ThenHolds(Then(TokenEnv(ps), CodeEnv(ps)), BlockEnv(ps), b, v);
  }

  lemma NotACode(ps: seq<string>, t: Tag, k: nat)
    requires t != IC
    ensures Body(t, k) !in CodeEnv(ps)
  {
    EnvDomain(IC, Codes(ps), 0);
    forall j: nat ensures Body(t, k) != Body(IC, j) {
      BodyInjective(t, k, IC, j);
    }
  }

  // ---- the whole round trip, with nothing rewritten in between ----

  /** The escaped text with its tokens in place. */
  function Whole(ps: seq<string>): string
    requires ps != []
  {
    Join(EscapeEvens(ps), "")
  }

  lemma WrapNothing(tokens: seq<string>)
    ensures WrapAll(Ends(tokens), "") == Ends(tokens)
  {
    forall k | 0 <= k < |tokens| ensures Wrap("", End(tokens[k])) == End(tokens[k]) {
      assert "" + (tokens[k] + "") == tokens[k];
    }
  }

  lemma {:induction false} OddsEnds(ps: seq<string>)
    ensures Odds(Ends(ps)) == Ends(Odds(ps))
    decreases |ps|
  {
    if |ps| >= 2 {
      OddsEnds(ps[2..]);
      assert Ends(ps)[2..] == Ends(ps[2..]);
    }
  }

  lemma TokensBack(ps: seq<string>)
    requires |ps| % 2 == 1
    ensures Text(Subst(Tokenised(ps), TokenEnv(ps))) == Whole(ps)
  {
    var es := EscapeEvens(ps);
    EscapedOdds(ps);
    OddsEnds(es);
    WrapNothing(Odds(ps));
    EndsNoHoles(es);
    EvensAndOdds(Ends(es));
    CodesBack(Ends(es), ST, "");
    JoinText(Ends(es), "");
    TextsEnds(es);
  }

  lemma WholeNulFree(ps: seq<string>)
    requires Input(ps)
    ensures NulFree(Whole(ps))
  {
    var d := Subst(Tokenised(ps), TokenEnv(ps));
    TokensBack(ps);
    StagesTame(ps, false);
    TameIsSafe(Tokenised(ps), false);
    TokenValues(ps);
    EnvReplacements(ST, Ends(Odds(ps)));
    SubstClean(Tokenised(ps), TokenEnv(ps));
    forall x ensures HoleCount(d, x) == 0 {
      InTokenEnv(ps, x);
      HolesGone(Tokenised(ps), TokenEnv(ps), x);
      TokenisedCount(ps, x);
      if x !in TokenEnv(ps) {
        NotNumbered(ps, x);
      }
    }
    NoHoles(d);
    NulFreeText(d);
  }

  /** Values without tokens change places with the tokens. */
  lemma TokensLast(ps: seq<string>, d: Doc, codes: seq<Doc>, t: Tag, q: string)
    requires t != ST
    requires forall k :: 0 <= k < |ps| / 2 ==> AllHoles(codes)[Body(ST, k)] == 0
    ensures var env := Env(t, WrapAll(codes, q), 0);
            Subst(Subst(d, TokenEnv(ps)), env) == Subst(Subst(d, env), TokenEnv(ps))
  {
    var docs := WrapAll(codes, q);
    var env := Env(t, docs, 0);
    EnvDomain(t, docs, 0);
    InTokenEnv(ps, "");
    forall h <- env ensures h !in TokenEnv(ps) && forall g :: g in Holes(env[h]) ==> g !in TokenEnv(ps) {
      var k :| 0 <= k < |docs| && h == Body(t, k);
      NotAToken(ps, t, k);
      NoTokenInside(ps, codes, q, k);
    }
    SubstSwap(d, TokenEnv(ps), env);
  }

  lemma NoTokenInside(ps: seq<string>, codes: seq<Doc>, q: string, k: nat)
    requires k < |codes| && forall j :: 0 <= j < |ps| / 2 ==> AllHoles(codes)[Body(ST, j)] == 0
    ensures forall g :: g in Holes(Wrap(q, codes[k])) ==> g !in TokenEnv(ps)
  {
    WrapHoles(q, codes[k]);
    HolesOfPart(codes, k);
    forall g | g in Holes(codes[k]) ensures g !in TokenEnv(ps) {
      assert multiset(Holes(codes[k]))[g] > 0;
      InTokenEnv(ps, g);
    }
  }

  lemma CodesUndone(ps: seq<string>)
    requires PlainTexts(ps, false)
    ensures Subst(Uncoded(ps), CodeEnv(ps)) == Unfenced(ps)
  {
    StagesTame(ps, false);
    StageTexts(ps);
    forall k: nat ensures EvenHoles(InlineSplit(ps))[Body(IC, k)] == 0 {
      NoCodeInside(ps, k);
    }
    CodesBack(InlineSplit(ps), IC, TICK);
    InlineJoins(Unfenced(ps));
  }

  predicate FencesPair(ps: seq<string>) {
    var n := Fences(EscapeEntities(Weave(ps, ST, 0)));
    n < 3 || n % 2 == 0
  }

  lemma BlocksUndone(ps: seq<string>)
    requires PlainTexts(ps, false)
    ensures var e := Subst(Unfenced(ps), BlockEnv(ps));
            if FencesPair(ps) then e == Tokenised(ps) else Longer(Tokenised(ps), e)
  {
    StagesTame(ps, false);
    StageTexts(ps);
    TokenisedText(ps);
    forall k: nat ensures EvenHoles(FenceSplit(ps))[Body(CB, k)] == 0 {
      NoBlockInText(ps, k);
    }
    CodesBack(FenceSplit(ps), CB, FENCE);
    FenceJoins(Tokenised(ps));
  }

  lemma NoBlockInText(ps: seq<string>, k: nat)
    requires PlainTexts(ps, false)
    ensures EvenHoles(FenceSplit(ps))[Body(CB, k)] == 0
  {
    BodyCounts(ps, CB, k);
  }

  /** With no token in code, filling everything gives the whole text exactly if the fences pair. */
  lemma FilledIsWhole(ps: seq<string>)
    requires Input(ps) && NoTokenInCode(ps)
    ensures Text(Filled(ps, Uncoded(ps))) == Whole(ps) <==> FencesPair(ps)
  {
    NoTokenSplit(ps);
    TokensLast(ps, Uncoded(ps), Odds(InlineSplit(ps)), IC, TICK);
    CodesUndone(ps);
    TokensLast(ps, Unfenced(ps), Odds(FenceSplit(ps)), CB, FENCE);
    BlocksUndone(ps);
    TokensBack(ps);
    if !FencesPair(ps) {
      LongerFilled(Tokenised(ps), Subst(Unfenced(ps), BlockEnv(ps)), TokenEnv(ps));
    }
  }

  lemma LongerFilled(d: Doc, j: Doc, env: map<string, Doc>)
    requires Longer(d, j)
    ensures |Text(Subst(j, env))| > |Text(Subst(d, env))|
  {
    var y :| j == Append(d, y) && y.lit != "";
    SubstAppend(d, y, env);
    TextAppend(Subst(d, env), Subst(y, env));
    StartKept(y, env);
  }

  lemma StartKept(y: Doc, env: map<string, Doc>)
    ensures |Text(Subst(y, env))| >= |y.lit|
  {
    if y.Node? && y.hole in env {
      TextAppend(End(y.lit), Append(env[y.hole], Subst(y.rest, env)));
    }
  }

  /**
   Protecting and restoring gives the escaped text back exactly if the fences pair, no token stands inside
   code and no text is mistaken for a placeholder.
   */
  lemma JointRoundTrip(ps: seq<string>)
    requires Input(ps)
    ensures RestoreAll(Protect(ps), Protect(ps).text) == Whole(ps) <==>
            FencesPair(ps) && NoTokenInCode(ps) && NeverMistaken(ps, Uncoded(ps))
  {
    StageTexts(ps);
    UnchangedIsKept(ps);
    JointProtection(ps, Uncoded(ps));
    WholeNulFree(ps);
    if NoTokenInCode(ps) {
      FilledIsWhole(ps);
    }
  }

  lemma NoTokenSplit(ps: seq<string>)
    requires NoTokenInCode(ps)
    ensures forall k :: 0 <= k < |ps| / 2 ==>
              AllHoles(Odds(InlineSplit(ps)))[Body(ST, k)] == 0 && AllHoles(Odds(FenceSplit(ps)))[Body(ST, k)] == 0
  {
    forall k | 0 <= k < |ps| / 2
      ensures AllHoles(Odds(InlineSplit(ps)))[Body(ST, k)] == 0 && AllHoles(Odds(FenceSplit(ps)))[Body(ST, k)] == 0
    {
      assert InCode(ps, k) == 0;
    }
  }
}
