/** Inputs on which the pipeline of internal/slackmrkdwn/format.go does not put everything back. */
module MrkdwnWitnesses {
  import opened Search
  import opened Placeholders
  import opened Restoring
  import opened Extraction
  import opened DocExtraction
  import opened TameTexts
  import opened CodeParts
  import opened Escape
  import opened Mrkdwn
  import opened MrkdwnTheorems

  // ---- a token in inline code is not restored ----

  lemma TickedChars(n: nat)
    ensures var p := Placeholder(ST, n);
            |p| >= 5 && '`' !in p && '&' !in p && '<' !in p && '>' !in p
  {
    DecShape(n);
    var p := Placeholder(ST, n);
    forall i | 0 <= i < |p| ensures p[i] !in {'`', '&', '<', '>'} {
      if 3 <= i < |p| - 1 {
        assert p[i] == Dec(n)[i - 3];
      }
    }
  }

  lemma NoFenceIn(p: string)
    requires |p| >= 5 && '`' !in p
    ensures FenceParts(TICK + p + TICK) == [TICK + p + TICK]
  {
    var s := TICK + p + TICK;
    forall i | 0 <= i && i + 3 <= |s| ensures !HasAt(s, i, FENCE) {
      assert s[i + 1] == p[i];
      NotOnlyTicks(s, i, FENCE, 1);
    }
    SplitNone(s, FENCE);
  }

  lemma OneInlineCode(p: string)
    requires '`' !in p
    ensures InlineParts(TICK + p + TICK) == ["", p, ""]
  {
    NoTick("");
    SplitTick(p, "", [""]);
    SplitTick("", p + TICK + "", [p] + [""]);
    assert "" + TICK + (p + TICK + "") == TICK + p + TICK;
    assert [""] + ([p] + [""]) == ["", p, ""];
    OddParts(TICK + p + TICK, ["", p, ""]);
  }

  /** `<@U1>` between backticks: the output shows the placeholder instead of the token. */
  lemma TokenLeftInCode(token: string)
    requires NulFree(token) && Marked(token)
    ensures Input([TICK, token, TICK])
    ensures var p := Placeholder(ST, 0);
            var x := Protect([TICK, token, TICK]);
            x.codes == [p] && x.blocks == [] && x.text == Placeholder(IC, 0)
            && RestoreAll(x, x.text) == TICK + p + TICK
  {
    var p, ps := Placeholder(ST, 0), [TICK, token, TICK];
    TickedChars(0);
    assert ps[2..] == [TICK] && Weave(ps, ST, 0) == TICK + p + TICK;
    EscapeIsOnePass(TICK + p + TICK);
    EscapeNothing(TICK + p + TICK);
    NoFenceIn(p);
    OneInlineCode(p);
    OneHole(p, token);
    assert Odds(ps) == [token];
    StrictInput(ps);
    assert Odds([TICK + p + TICK]) == [] && Weave([TICK + p + TICK], CB, 0) == TICK + p + TICK;
  }

  lemma OneHole(p: string, token: string)
    requires p == Placeholder(ST, 0)
    ensures Odds(["", p, ""]) == [p] && Weave(["", p, ""], IC, 0) == Placeholder(IC, 0)
    ensures Restore(Placeholder(IC, 0), ST, [token], 0) == Placeholder(IC, 0)
    ensures Restore(Placeholder(IC, 0), IC, Wrapped([p], TICK), 0) == TICK + p + TICK
  {
    var b := Body(IC, 0);
    assert ["", p, ""][2..] == [""];
    assert "" + Key(b) + "" == Key(b);
    BodyChars(IC, 0);
    BodyChars(ST, 0);
    BodyInjective(IC, 0, ST, 0);
    ReplaceIsHole(Node("", b, End("")), Body(ST, 0), End(token));
    HoleText(b);
    ReplaceAtFirstHole("", b, "", TICK + p + TICK);
    assert "" + (TICK + p + TICK) + "" == TICK + p + TICK;
  }

  // ---- texts that only talk about placeholders ----

  lemma {:induction false} EscapeNoTick(s: string)
    requires '`' !in s
    ensures '`' !in EscapeChars(s)
  {
    if s != "" {
      EscapeNoTick(s[1..]);
    }
  }

  /** A text without backticks and tokens is admitted whatever it says, "IC0" included. */
  lemma PlainProseIsInput(text: string)
    requires NulFree(text) && '`' !in text
    ensures Input([text]) && NoTokenInCode([text]) && NeverMistaken([text], Uncoded([text]))
  {
    var ps, l := [text], EscapeChars(text);
    EscapeNoTick(text);
    forall i | 0 <= i && i + 3 <= |l| ensures !HasAt(l, i, FENCE) {
      NotOnlyTicks(l, i, FENCE, 0);
    }
    SplitNone(l, FENCE);
    NoTick(l);
    OneText(text, l);
    OddInline(l, [l]);
    assert InlineSplit(ps) == [End(l)];
    assert forall t: Tag :: Vals(ps, t) == [];
  }

  // ---- text between placeholders can be mistaken for one ----

  predicate TicksApart(s: string) {
    forall i :: 0 <= i < |s| - 1 ==> s[i] != '`' || s[i + 1] != '`'
  }

  lemma NoFenceApart(s: string)
    requires TicksApart(s)
    ensures FenceParts(s) == Split(s, FENCE) == [s]
  {
    forall i | 0 <= i && i + 3 <= |s| ensures !HasAt(s, i, FENCE) {
      NotOnlyTicks(s, i, FENCE, if s[i] != '`' then 0 else 1);
    }
    SplitNone(s, FENCE);
  }

  lemma SplitTick(a: string, b: string, parts: seq<string>)
    requires '`' !in a && Split(b, TICK) == parts
    ensures Split(a + TICK + b, TICK) == [a] + parts
  {
    var s := a + TICK + b;
    assert s[..|a|] == a && s[|a| + 1..] == b;
    TickFirst(s, |a|);
  }

  /** A text with two codes in it. */
  function Two(x: string, m: string, y: string, r: string): string {
    "" + TICK + (x + TICK + (m + TICK + (y + TICK + r)))
  }

  lemma SplitTwo(x: string, m: string, y: string, r: string)
    requires '`' !in x && '`' !in m && '`' !in y && '`' !in r
    ensures Split(Two(x, m, y, r), TICK) == [""] + ([x] + ([m] + ([y] + [r])))
  {
    NoTick(r);
    SplitTick(y, r, [r]);
    SplitTick(m, y + TICK + r, [y] + [r]);
    SplitTick(x, m + TICK + (y + TICK + r), [m] + ([y] + [r]));
    SplitTick("", x + TICK + (m + TICK + (y + TICK + r)), [x] + ([m] + ([y] + [r])));
  }

  lemma OddParts(s: string, parts: seq<string>)
    requires Split(s, TICK) == parts && |parts| % 2 == 1
    ensures InlineParts(s) == parts
  {
  }

  lemma Five<T>(a: T, b: T, c: T, d: T, e: T)
    ensures [a] + ([b] + ([c] + ([d] + [e]))) == [a, b, c, d, e]
  {
  }

  lemma TwoCodes(x: string, m: string, y: string, r: string)
    requires '`' !in x && '`' !in m && '`' !in y && '`' !in r
    ensures InlineParts(Two(x, m, y, r)) == ["", x, m, y, r]
  {
    SplitTwo(x, m, y, r);
    Five("", x, m, y, r);
    OddParts(Two(x, m, y, r), ["", x, m, y, r]);
  }

  lemma FiveParts(x: string, m: string, y: string, r: string)
    ensures Odds(["", x, m, y, r]) == [x, y]
    ensures Weave(["", x, m, y, r], IC, 0) == "" + Placeholder(IC, 0) + (m + Placeholder(IC, 1) + r)
  {
    var ps := ["", x, m, y, r];
    assert ps[2..] == [m, y, r] && [m, y, r][2..] == [r];
    assert Odds([r]) == [] && Weave([r], IC, 2) == r;
    assert Odds([m, y, r]) == [y] && Weave([m, y, r], IC, 1) == m + Placeholder(IC, 1) + r;
  }

  // ---- text between two codes, without a token ----

  function Around(m: string): string {
    "`x`" + m + "`y`"
  }

  function FiveTexts(e: string): (parts: seq<string>)
    ensures |parts| == 5
  {
    ["", "x", e, "y", ""]
  }

  lemma BetweenEscaped(m: string)
    requires NulFree(m) && '`' !in m && m != ""
    ensures var e := EscapeChars(m);
            && NulFree(Around(m)) && EscapeChars(Around(m)) == Around(e)
            && NulFree(e) && '`' !in e && e != ""
  {
    EscapeNulFree(m);
    EscapeNoTick(m);
    EscapeNothing("`x`");
    EscapeNothing("`y`");
    EscapeCharsConcat("`x`" + m, "`y`");
    EscapeCharsConcat("`x`", m);
    assert |Entity(m[0])| > 0;
  }

  lemma BetweenParts(e: string)
    requires '`' !in e && e != ""
    ensures var s := Around(e);
            FenceParts(s) == Split(s, FENCE) == [s] && Split(s, TICK) == FiveTexts(e)
  {
    var s := Around(e);
    assert TicksApart(s);
    NoFenceApart(s);
    assert s == Two("x", e, "y", "") by {
      assert s == "`" + "x" + "`" + e + "`" + "y" + "`";
    }
    SplitTwo("x", e, "y", "");
    Five("", "x", e, "y", "");
  }

  /** The two codes' placeholders with the text in between. */
  function BetweenDoc(e: string): Doc {
    Node("", Body(IC, 0), Node(e, Body(IC, 1), End("")))
  }

  lemma HoleBetween(l: string, b: string, rest: Doc)
    ensures Append(End(l), Append(Node("", b, End("")), rest)) == Node(l, b, rest)
  {
    AppendEmpty(rest);
    assert l + "" == l;
  }

  lemma FiveEnds(ds: seq<Doc>, e: string)
    requires ds == Ends(FiveTexts(e))
    ensures Odds(ds) == [End("x"), End("y")] && WeaveDoc(ds, IC, 0) == BetweenDoc(e)
  {
    assert ds[2..] == [End(e), End("y"), End("")] && ds[2..][2..] == [End("")];
    assert Odds(ds[2..][2..]) == [];
    assert Odds(ds[2..]) == [End("y")];
    assert WeaveDoc(ds[2..][2..], IC, 2) == End("");
    HoleBetween(e, Body(IC, 1), End(""));
    HoleBetween("", Body(IC, 0), WeaveDoc(ds[2..], IC, 1));
  }

  /** A text without tokens and fences. */
  lemma OneText(text: string, s: string)
    requires s == EscapeChars(text) && Split(s, FENCE) == [s]
    ensures var ps := [text];
            && Odds(ps) == [] && FencesPair(ps) && FenceSplit(ps) == [End(s)] && Odds(FenceSplit(ps)) == []
            && InlineSplit(ps) == InlinePartsDoc(End(s))
  {
    var ps := [text];
    EscapeIsOnePass(text);
    assert Weave(ps, ST, 0) == text;
    assert Ends(EscapeEvens(ps)) == [End(s)] && Ends([s]) == [End(s)];
    assert Tokenised(ps) == End(s);
    assert FenceSplit(ps) == [End(s)] && Unfenced(ps) == End(s);
  }

  lemma OddInline(s: string, parts: seq<string>)
    requires Split(s, TICK) == parts && |parts| % 2 == 1
    ensures InlinePartsDoc(End(s)) == Ends(parts)
  {
  }

  lemma BetweenStages(m: string)
    requires NulFree(m) && '`' !in m && m != ""
    ensures var ps := [Around(m)];
            && Odds(ps) == [] && FencesPair(ps) && Odds(FenceSplit(ps)) == []
            && Odds(InlineSplit(ps)) == [End("x"), End("y")] && Uncoded(ps) == BetweenDoc(EscapeChars(m))
  {
    var e := EscapeChars(m);
    BetweenEscaped(m);
    BetweenParts(e);
    PartStages(Around(m), Around(e), FiveTexts(e));
    FiveEnds(Ends(FiveTexts(e)), e);
  }

  lemma PartStages(text: string, s: string, parts: seq<string>)
    requires s == EscapeChars(text) && Split(s, FENCE) == [s] && Split(s, TICK) == parts && |parts| % 2 == 1
    ensures var ps := [text];
            && Odds(ps) == [] && FencesPair(ps) && Odds(FenceSplit(ps)) == []
            && InlineSplit(ps) == Ends(parts) && Uncoded(ps) == WeaveDoc(Ends(parts), IC, 0)
  {
    OneText(text, s);
    OddInline(s, parts);
  }

  /** Two codes with a text in between: whatever it says, ST0 and IC1 included, nothing is mistaken. */
  lemma BetweenCodes(m: string)
    requires NulFree(m) && '`' !in m && m != ""
    ensures var ps := [Around(m)];
            && Input(ps) && FencesPair(ps) && NoTokenInCode(ps) && NeverMistaken(ps, Uncoded(ps))
            && RestoreAll(Protect(ps), Protect(ps).text) == Whole(ps)
  {
    var ps := [Around(m)];
    BetweenEscaped(m);
    BetweenStages(m);
    TwoSmooth(ps, EscapeChars(m));
    JointRoundTrip(ps);
  }

  lemma TwoSmooth(ps: seq<string>, e: string)
    requires Odds(ps) == [] && Odds(FenceSplit(ps)) == [] && |Odds(InlineSplit(ps))| == 2
    ensures NeverMistaken(ps, BetweenDoc(e))
  {
    forall t: Tag, k: nat | k < |Vals(ps, t)|
      ensures !Misread(BetweenDoc(e), FilledBefore(ps, t, k), Body(t, k), false)
    {
      assert t == IC && k < 2 && TokenEnv(ps) == map[];
      ThenNothing(Env(IC, Codes(ps)[..k], 0));
      FirstFilled(Codes(ps), k);
      TwoUnread(e, Env(IC, Codes(ps)[..k], 0), k);
    }
  }

  lemma ThenNothing(env: map<string, Doc>)
    ensures Then(map[], env) == env
  {
  }

  lemma FirstFilled(docs: seq<Doc>, k: nat)
    requires k < 2 == |docs|
    ensures var now := Env(IC, docs[..k], 0);
            (Body(IC, 0) in now <==> k == 1) && Body(IC, 1) !in now && (k == 1 ==> now[Body(IC, 0)] == docs[0])
  {
    EnvDomain(IC, docs[..k], 0);
    BodyInjective(IC, 0, IC, 1);
  }

  lemma TwoUnread(e: string, now: map<string, Doc>, k: nat)
    requires k < 2 && (Body(IC, 0) in now <==> k == 1) && Body(IC, 1) !in now
    requires k == 1 ==> now[Body(IC, 0)].End?
    ensures !Misread(BetweenDoc(e), now, Body(IC, k), false)
  {
    if k == 1 {
      assert !Misread(BetweenDoc(e).rest, now, Body(IC, 1), false);
    }
  }

  /** The input: codes x and y around the text ST0, and a token behind. */
  const CUT := "`x`ST0`y` "

  lemma CutIsTwo(p: string)
    ensures CUT + p + "" == Two("x", "ST0", "y", " " + p)
  {
    assert CUT == "`" + "x" + "`" + "ST0" + "`" + "y" + "`" + " ";
  }

  lemma CutApart(p: string)
    requires '`' !in p
    ensures TicksApart(CUT + p + "")
  {
  }

  lemma CutPlain(p: string)
    requires '&' !in p && '<' !in p && '>' !in p
    ensures EscapeChars(CUT + p + "") == CUT + p + ""
  {
    EscapeNothing(CUT + p + "");
  }

  lemma CutStages(token: string)
    ensures var p, x := Placeholder(ST, 0), Protect([CUT, token, ""]);
            && x.tokens == [token] && x.codes == ["x", "y"] && x.blocks == []
            && x.text == "" + Placeholder(IC, 0) + ("ST0" + Placeholder(IC, 1) + (" " + p))
  {
    var p, ps := Placeholder(ST, 0), [CUT, token, ""];
    var s := CUT + p + "";
    TickedChars(0);
    assert ps[2..] == [""] && Odds([""]) == [] && Odds(ps) == [token] && Weave(ps, ST, 0) == s;
    EscapeIsOnePass(s);
    CutPlain(p);
    CutApart(p);
    NoFenceApart(s);
    assert Odds([s]) == [] && Weave([s], CB, 0) == s;
    CutIsTwo(p);
    assert '`' !in " " + p;
    TwoCodes("x", "ST0", "y", " " + p);
    FiveParts("x", "ST0", "y", " " + p);
  }

  /** What the first restore loop leaves: the codes' placeholders have become one word. */
  function Confused(token: string): Doc {
    Node("", Body(IC, 0) + token + Body(IC, 1), Node(" ", Body(ST, 0), End("")))
  }

  lemma TokenMisplaced(token: string)
    ensures var text := "" + Placeholder(IC, 0) + ("ST0" + Placeholder(IC, 1) + (" " + Placeholder(ST, 0)));
            Restore(text, ST, [token], 0) == Text(Confused(token))
  {
    BodyChars(IC, 0);
    BodyChars(ST, 0);
    BodyInjective(IC, 0, ST, 0);
    assert Body(ST, 0) == "ST0";
    Misplaced(Body(IC, 0), Body(ST, 0), Body(IC, 1), token);
  }

  lemma Misplaced(h: string, b: string, g: string, v: string)
    requires NulFree(h) && NulFree(b) && h != b
    ensures ReplaceFirst("" + Key(h) + (b + Key(g) + (" " + Key(b))), Key(b), v) == Text(Node("", h + v + g, Node(" ", b, End(""))))
  {
    var rest := g + [NUL] + " " + Key(b);
    FalseMatch("", h, b, rest, v);
    Laid(h, b, g, v);
  }

  lemma Laid(h: string, b: string, g: string, v: string)
    ensures var rest := g + [NUL] + " " + Key(b);
            && "" + Key(h) + (b + Key(g) + (" " + Key(b))) == "" + [NUL] + h + [NUL] + b + [NUL] + rest
            && "" + [NUL] + h + v + rest == Text(Node("", h + v + g, Node(" ", b, End(""))))
  {
    assert Text(Node(" ", b, End(""))) == " " + Key(b);
  }

  lemma NothingToRestore(token: string, k: nat, v: string)
    requires NulFree(token) && Marked(token)
    ensures ReplaceFirst(Text(Confused(token)), Key(Body(IC, k)), v) == Text(Confused(token))
  {
    var d, b := Confused(token), Body(IC, k);
    BodyChars(IC, 0);
    BodyChars(IC, 1);
    BodyChars(ST, 0);
    BodyChars(IC, k);
    MarkedConcat(Body(IC, 0), token, Body(IC, 1));
    MarkedNotBody(d.hole);
    assert IsBody(b);
    BodyInjective(ST, 0, IC, k);
    DecShape(k);
    NoSuchHole(d, b, v);
  }

  lemma NoSuchHole(d: Doc, b: string, v: string)
    requires d.Node? && d.rest.Node? && d.rest.rest.End? && Clean(d) && NulFree(b)
    requires d.hole != b && d.rest.hole != b && d.rest.lit != b
    ensures ReplaceFirst(Text(d), Key(b), v) == Text(d)
  {
    ReplaceUnmistaken(d, b, End(v));
    assert ReplaceHole(d.rest, b, End(v)) == d.rest;
    assert ReplaceHole(d, b, End(v)) == d;
  }

  lemma CodesNotRestored(token: string, v: string, w: string)
    requires NulFree(token) && Marked(token)
    ensures Restore(Text(Confused(token)), IC, [v, w], 0) == Text(Confused(token))
  {
    var t, vals := Text(Confused(token)), [v, w];
    NothingToRestore(token, 0, v);
    NothingToRestore(token, 1, w);
    assert Restore(t, IC, vals, 2) == t;
    assert Restore(t, IC, vals, 1) == t;
  }

  lemma CutIsInput(token: string)
    requires NulFree(token) && Marked(token)
    ensures TokenParts([CUT, token, ""]) && PlainTexts([CUT, token, ""], false)
  {
    var ps := [CUT, token, ""];
    assert ps[2..] == [""];
    assert NulFree(CUT) && NulFree("");
  }

  lemma CutDoc(token: string)
    requires NulFree(token) && Marked(token)
    ensures var ps := [CUT, token, ""];
            && Uncoded(ps) == CutText(Body(IC, 0), Body(IC, 1), Body(ST, 0))
            && Texts(Odds(InlineSplit(ps))) == ["x", "y"] && Texts(Odds(FenceSplit(ps))) == []
  {
    var ps := [CUT, token, ""];
    CutIsInput(token);
    CutStages(token);
    StageTexts(ps);
    StagesTame(ps, false);
    TameIsSafe(Uncoded(ps), false);
    CutLaid(Body(IC, 0), Body(IC, 1), Body(ST, 0));
    CutClean();
    TextInjective(Uncoded(ps), CutText(Body(IC, 0), Body(IC, 1), Body(ST, 0)));
  }

  /** The text ST0 between two placeholders, and a third one. */
  function CutText(g: string, h: string, b: string): Doc {
    Node("", g, Node("ST0", h, Node(" ", b, End(""))))
  }

  lemma CutClean()
    ensures Clean(CutText(Body(IC, 0), Body(IC, 1), Body(ST, 0)))
  {
    BodyChars(IC, 0);
    BodyChars(IC, 1);
    BodyChars(ST, 0);
  }

  lemma CutLaid(g: string, h: string, b: string)
    ensures "" + Key(g) + ("ST0" + Key(h) + (" " + Key(b))) == Text(CutText(g, h, b))
  {
    assert Text(Node(" ", b, End(""))) == " " + Key(b);
    assert Text(Node("ST0", h, Node(" ", b, End("")))) == "ST0" + Key(h) + (" " + Key(b));
  }

  lemma {:induction false} PlainDocsNoHoles(ds: seq<Doc>)
    requires forall k :: 0 <= k < |ds| ==> NulFree(Texts(ds)[k])
    ensures AllHoles(ds) == multiset{}
  {
    if ds != [] {
      assert NulFree(Texts(ds)[0]);
      PlainDocNoHoles(ds[0]);
      assert forall k :: 0 <= k < |ds[1..]| ==> Texts(ds[1..])[k] == Texts(ds)[k + 1];
      PlainDocsNoHoles(ds[1..]);
    }
  }

  lemma PlainDocNoHoles(d: Doc)
    requires NulFree(Text(d))
    ensures Holes(d) == []
  {
    HoleShows(d);
  }

  lemma HoleShows(d: Doc)
    ensures d.Node? ==> NUL in Text(d)
  {
    if d.Node? {
      assert Text(d)[|d.lit|] == NUL;
    }
  }

  /** No token is in code when no code and no block holds a NUL. */
  lemma CodesNulFree(ps: seq<string>)
    requires forall c <- Texts(Odds(InlineSplit(ps))) + Texts(Odds(FenceSplit(ps))) :: NulFree(c)
    ensures NoTokenInCode(ps)
  {
    var cs, bs := Odds(InlineSplit(ps)), Odds(FenceSplit(ps));
    assert forall k :: 0 <= k < |cs| ==> Texts(cs)[k] in Texts(cs) + Texts(bs);
    assert forall k :: 0 <= k < |bs| ==> Texts(bs)[k] in Texts(cs) + Texts(bs);
    PlainDocsNoHoles(cs);
    PlainDocsNoHoles(bs);
  }

  lemma CutFences(token: string)
    ensures FencesPair([CUT, token, ""])
  {
    var p, ps := Placeholder(ST, 0), [CUT, token, ""];
    var s := CUT + p + "";
    TickedChars(0);
    assert ps[2..] == [""] && Weave(ps, ST, 0) == s;
    EscapeIsOnePass(s);
    CutPlain(p);
    CutApart(p);
    NoFenceApart(s);
  }

  lemma CutMistaken(ps: seq<string>, token: string)
    requires ps == [CUT, token, ""] && Uncoded(ps) == CutText(Body(IC, 0), Body(IC, 1), Body(ST, 0))
    ensures !NeverMistaken(ps, Uncoded(ps))
  {
    var b := Body(ST, 0);
    BodyInjective(IC, 0, ST, 0);
    NothingYet(ps, token);
    assert b == "ST0";
    CutMisread(Body(IC, 0), Body(IC, 1), b);
    FirstMistaken(ps, Uncoded(ps));
  }

  lemma FirstMistaken(ps: seq<string>, d: Doc)
    requires |Vals(ps, ST)| == 1 && Misread(d, FilledBefore(ps, ST, 0), Body(ST, 0), false)
    ensures !NeverMistaken(ps, d)
  {
  }

  lemma NothingYet(ps: seq<string>, token: string)
    requires |ps| == 3 && ps[1] == token
    ensures |Vals(ps, ST)| == 1 && FilledBefore(ps, ST, 0) == map[]
  {
    assert Odds(ps[2..]) == [];
    assert Odds(ps) == [token];
  }

  lemma CutMisread(g: string, h: string, b: string)
    requires b == "ST0" && g != b
    ensures Misread(CutText(g, h, b), map[], b, false)
  {
    assert Misread(CutText(g, h, b).rest, map[], b, true);
  }

  lemma CutComesOut(token: string)
    requires NulFree(token) && Marked(token)
    ensures var ps := [CUT, token, ""];
            RestoreAll(Protect(ps), Protect(ps).text) == Key(Body(IC, 0) + token + Body(IC, 1)) + (" " + Placeholder(ST, 0))
  {
    CutStages(token);
    TokenMisplaced(token);
    WrappedTwo();
    CodesNotRestored(token, TICK + "x" + TICK, TICK + "y" + TICK);
    ConfusedText(Body(IC, 0) + token + Body(IC, 1), Body(ST, 0));
  }

  lemma CutMeets(ps: seq<string>, token: string)
    requires NulFree(token) && Marked(token) && ps == [CUT, token, ""]
    ensures Input(ps) && FencesPair(ps) && NoTokenInCode(ps) && !NeverMistaken(ps, Uncoded(ps))
  {
    CutIsInput(token);
    CutFences(token);
    CutDoc(token);
    CutMistaken(ps, token);
    TwoNulFree();
    CodesNulFree(ps);
  }

  lemma TwoNulFree()
    ensures forall c <- ["x", "y"] + [] :: NulFree(c)
  {
  }

  /** Both codes are lost, and the token comes out in the wrong place, though fences pair and no token is in code. */
  lemma TextTakenForToken(token: string)
    requires NulFree(token) && Marked(token)
    ensures var ps := [CUT, token, ""];
            && CUT == "`x`ST0`y` "
            && Input(ps) && FencesPair(ps) && NoTokenInCode(ps) && !NeverMistaken(ps, Uncoded(ps))
            && RestoreAll(Protect(ps), Protect(ps).text) == Key(Body(IC, 0) + token + Body(IC, 1)) + (" " + Placeholder(ST, 0))
  {
    CutMeets([CUT, token, ""], token);
    CutComesOut(token);
  }

  lemma WrappedTwo()
    ensures Wrapped(["x", "y"], TICK) == [TICK + "x" + TICK, TICK + "y" + TICK] && Wrapped([], FENCE) == []
  {
  }

  lemma ConfusedText(h: string, b: string)
    ensures Text(Node("", h, Node(" ", b, End("")))) == Key(h) + (" " + Key(b))
  {
    assert Text(Node(" ", b, End(""))) == " " + Key(b);
  }
}
