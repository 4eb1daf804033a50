/**
 markdownToSlackMrkdwn of internal/slackmrkdwn/format.go from the token extraction to the restore loops.
 The regular expressions that rewrite what is left in between are an arbitrary function.
 */
module Mrkdwn {
  import opened Search
  import opened Placeholders
  import opened Restoring
  import opened Extraction
  import opened DocExtraction
  import opened TameTexts
  import opened CodeParts
  import opened Escape

  // ---- the program ----

  /** The text cut at its Slack tokens: text, token, text, ..., text. */
  predicate TokenParts(ps: seq<string>) {
    |ps| % 2 == 1 && (|ps| >= 3 ==> NulFree(ps[1]) && Marked(ps[1]) && TokenParts(ps[2..]))
  }

  /** The text parts have no NUL; read strictly, nothing either that begins like the inside of a placeholder. */
  predicate PlainTexts(ps: seq<string>, strict: bool) {
    ps != [] ==> Plain(ps[0], strict) && (|ps| >= 2 ==> PlainTexts(ps[2..], strict))
  }

  datatype Protected = Protected(tokens: seq<string>, codes: seq<string>, blocks: seq<string>, text: string)

  function Protect(ps: seq<string>): Protected {
    var escaped := EscapeEntities(Weave(ps, ST, 0));
    var fs := FenceParts(escaped);
    var inl := InlineParts(Weave(fs, CB, 0));
    Protected(Odds(ps), Odds(inl), Odds(fs), Weave(inl, IC, 0))
  }

  function RestoreAll(x: Protected, text: string): string {
    var t1 := Restore(text, ST, x.tokens, 0);
    var t2 := Restore(t1, IC, Wrapped(x.codes, TICK), 0);
    Restore(t2, CB, Wrapped(x.blocks, FENCE), 0)
  }

  method ToMrkdwn(ps: seq<string>, rewrite: string -> string) returns (text: string)
    requires |ps| % 2 == 1
    ensures text == RestoreAll(Protect(ps), rewrite(Protect(ps).text))
  {
    var tokens, blocks, codes := Odds(ps), [], [];
    text := EscapeEntities(Weave(ps, ST, 0));
    blocks, text := ExtractCodeBlocks(text);
    codes, text := ExtractInlineCodes(text);
    text := rewrite(text);
    text := RestoreLoop(text, ST, tokens);
    text := RestoreLoop(text, IC, Wrapped(codes, TICK));
    text := RestoreLoop(text, CB, Wrapped(blocks, FENCE));
  }

  // ---- the stages as texts with holes ----

  function Tokenised(ps: seq<string>): Doc { WeaveDoc(Ends(EscapeEvens(ps)), ST, 0) }
  function FenceSplit(ps: seq<string>): seq<Doc> { FencePartsDoc(Tokenised(ps)) }
  function Unfenced(ps: seq<string>): Doc { WeaveDoc(FenceSplit(ps), CB, 0) }
  function InlineSplit(ps: seq<string>): seq<Doc> { InlinePartsDoc(Unfenced(ps)) }
  function Uncoded(ps: seq<string>): Doc { WeaveDoc(InlineSplit(ps), IC, 0) }

  function TokenEnv(ps: seq<string>): map<string, Doc> { Env(ST, Ends(Odds(ps)), 0) }
  function Codes(ps: seq<string>): seq<Doc> { WrapAll(Odds(InlineSplit(ps)), TICK) }
  function CodeEnv(ps: seq<string>): map<string, Doc> { Env(IC, Codes(ps), 0) }
  function Blocks(ps: seq<string>): seq<Doc> { WrapAll(Odds(FenceSplit(ps)), FENCE) }
  function BlockEnv(ps: seq<string>): map<string, Doc> { Env(CB, Blocks(ps), 0) }

  // ---- escaping keeps texts plain ----

  lemma {:induction false} EscapePlain(s: string, strict: bool)
    requires Plain(s, strict)
    ensures Plain(EscapeChars(s), strict)
  {
    if s != "" {
      var e, r := Entity(s[0]), EscapeChars(s[1..]);
      PlainSlice(s, 1, |s|, strict);
      EscapePlain(s[1..], strict);
      EscapeNulFree(s);
      if strict {
        EscapeNoStart(s, e, r);
      }
    }
  }

  lemma EscapeNoStart(s: string, e: string, r: string)
    requires s != "" && e == Entity(s[0]) && r == EscapeChars(s[1..]) && NoBodyStart(s) && NoBodyStart(r)
    ensures NoBodyStart(e + r)
  {
    forall i | 0 <= i < |e + r| - 2 ensures !BodyStart((e + r)[i], (e + r)[i + 1], (e + r)[i + 2]) {
      if i >= |e| {
        assert !BodyStart(r[i - |e|], r[i - |e| + 1], r[i - |e| + 2]);
      } else if |e| == 1 {
        EscapeFront(s[1..]);
        if |s| >= 3 {
          EscapeFront(s[2..]);
          assert !BodyStart(s[0], s[1], s[2]);
        }
      } else {
        assert (e + r)[i] == e[i];
      }
    }
  }

  /** A first character that is a letter or a digit was there before the escaping. */
  lemma EscapeFront(s: string)
    ensures s == "" ==> EscapeChars(s) == ""
    ensures s != "" && EscapeChars(s)[0] != '&' ==>
      EscapeChars(s)[0] == s[0] && EscapeChars(s)[1..] == EscapeChars(s[1..])
  {
  }

  lemma {:induction false} EscapedTame(ps: seq<string>, strict: bool)
    requires PlainTexts(ps, strict)
    ensures EvensTame(Ends(EscapeEvens(ps)), strict)
    decreases |ps|
  {
    if ps != [] {
      EscapePlain(ps[0], strict);
      if |ps| >= 2 {
        EscapedTame(ps[2..], strict);
        assert Ends(EscapeEvens(ps))[2..] == Ends(EscapeEvens(ps[2..]));
      }
    }
  }

  lemma {:induction false} EscapedOdds(ps: seq<string>)
    ensures Odds(EscapeEvens(ps)) == Odds(ps)
    decreases |ps|
  {
    if |ps| >= 2 {
      EscapedOdds(ps[2..]);
      assert EscapeEvens(ps)[2..] == EscapeEvens(ps[2..]);
    }
  }

  // ---- the stages are what the program computes ----

  lemma StagesTame(ps: seq<string>, strict: bool)
    requires PlainTexts(ps, strict)
    ensures Tame(Tokenised(ps), strict) && AllTame(FenceSplit(ps), strict) && Tame(Unfenced(ps), strict)
    ensures AllTame(InlineSplit(ps), strict) && Tame(Uncoded(ps), strict)
  {
    EscapedTame(ps, strict);
    WeaveTame(Ends(EscapeEvens(ps)), ST, 0, strict);
    FenceTame(Tokenised(ps), strict);
    AllTameEvens(FenceSplit(ps), strict);
    WeaveTame(FenceSplit(ps), CB, 0, strict);
    InlineTame(Unfenced(ps), strict);
    AllTameEvens(InlineSplit(ps), strict);
    WeaveTame(InlineSplit(ps), IC, 0, strict);
  }

  lemma TokenisedText(ps: seq<string>)
    ensures Text(Tokenised(ps)) == EscapeEntities(Weave(ps, ST, 0))
  {
    EscapeIsOnePass(Weave(ps, ST, 0));
    EscapeWeave(ps, ST, 0);
    WeaveText(Ends(EscapeEvens(ps)), ST, 0);
    TextsEnds(EscapeEvens(ps));
  }

  lemma StageTexts(ps: seq<string>)
    requires PlainTexts(ps, false)
    ensures Protect(ps) == Protected(Odds(ps), Texts(Odds(InlineSplit(ps))), Texts(Odds(FenceSplit(ps))), Text(Uncoded(ps)))
    ensures |FenceSplit(ps)| % 2 == 1 && |InlineSplit(ps)| % 2 == 1
  {
    StagesTame(ps, false);
    TokenisedText(ps);
    FenceTexts(Tokenised(ps));
    OddsTexts(FenceSplit(ps));
    WeaveText(FenceSplit(ps), CB, 0);
    InlineTexts(Unfenced(ps));
    OddsTexts(InlineSplit(ps));
    WeaveText(InlineSplit(ps), IC, 0);
  }

  // ---- which placeholders stand where ----

  lemma TokenisedCount(ps: seq<string>, x: string)
    ensures HoleCount(Tokenised(ps), x) == Numbered(ST, 0, |ps| / 2)[x]
  {
    var es := Ends(EscapeEvens(ps));
    WeaveCount(es, ST, 0, x);
    EvensAndOdds(es);
    EndsNoHoles(EscapeEvens(ps));
  }

  /** Tokens only in text outside the fences and in the blocks; one placeholder per block. */
  lemma UnfencedCount(ps: seq<string>, x: string)
    requires PlainTexts(ps, false)
    ensures HoleCount(Unfenced(ps), x) == EvenHoles(FenceSplit(ps))[x] + Numbered(CB, 0, |FenceSplit(ps)| / 2)[x]
    ensures EvenHoles(FenceSplit(ps))[x] <= Numbered(ST, 0, |ps| / 2)[x]
    ensures AllHoles(Odds(FenceSplit(ps)))[x] <= Numbered(ST, 0, |ps| / 2)[x]
  {
    StagesTame(ps, false);
    TokenisedCount(ps, x);
    FenceHoles(Tokenised(ps), x);
    WeaveCount(FenceSplit(ps), CB, 0, x);
  }

  lemma UncodedCount(ps: seq<string>, x: string)
    requires PlainTexts(ps, false)
    ensures HoleCount(Uncoded(ps), x) == EvenHoles(InlineSplit(ps))[x] + Numbered(IC, 0, |InlineSplit(ps)| / 2)[x]
    ensures EvenHoles(InlineSplit(ps))[x] + AllHoles(Odds(InlineSplit(ps)))[x] == HoleCount(Unfenced(ps), x)
  {
    StagesTame(ps, false);
    InlineHoles(Unfenced(ps), x);
    WeaveCount(InlineSplit(ps), IC, 0, x);
  }

  /** The counts of one placeholder at every stage. */
  lemma BodyCounts(ps: seq<string>, t: Tag, k: nat)
    requires PlainTexts(ps, false)
    ensures var b := Body(t, k);
            && EvenHoles(FenceSplit(ps))[b] <= (if t == ST && k < |ps| / 2 then 1 else 0)
            && AllHoles(Odds(FenceSplit(ps)))[b] <= (if t == ST && k < |ps| / 2 then 1 else 0)
            && (t == CB ==> HoleCount(Unfenced(ps), b) == if k < |FenceSplit(ps)| / 2 then 1 else 0)
            && (t == IC ==> HoleCount(Unfenced(ps), b) == 0)
            && (t == IC ==> HoleCount(Uncoded(ps), b) == if k < |InlineSplit(ps)| / 2 then 1 else 0)
            && (t == ST ==> HoleCount(Uncoded(ps), b) <= if k < |ps| / 2 then 1 else 0)
  {
    FencedBodyCounts(ps, t, k);
    UncodedCount(ps, Body(t, k));
    NumberedCount(IC, 0, |InlineSplit(ps)| / 2, t, k);
  }

  lemma FencedBodyCounts(ps: seq<string>, t: Tag, k: nat)
    requires PlainTexts(ps, false)
    ensures var b := Body(t, k);
            && EvenHoles(FenceSplit(ps))[b] <= (if t == ST && k < |ps| / 2 then 1 else 0)
            && AllHoles(Odds(FenceSplit(ps)))[b] <= (if t == ST && k < |ps| / 2 then 1 else 0)
            && (t == CB ==> HoleCount(Unfenced(ps), b) == if k < |FenceSplit(ps)| / 2 then 1 else 0)
            && (t == IC ==> HoleCount(Unfenced(ps), b) == 0)
            && (t == ST ==> HoleCount(Unfenced(ps), b) <= if k < |ps| / 2 then 1 else 0)
  {
    UnfencedCount(ps, Body(t, k));
    NumberedCount(ST, 0, |ps| / 2, t, k);
    NumberedCount(CB, 0, |FenceSplit(ps)| / 2, t, k);
  }
}
