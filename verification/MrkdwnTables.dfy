/** The table conversion is one of the rewritings that keep every placeholder. */
module MrkdwnTables {
  import opened Search
  import opened Placeholders
  import opened DocExtraction
  import opened TameTexts
  import opened Mrkdwn
  import opened MrkdwnTheorems
  import Extraction
  import TableFences

  // ---- the placeholders of a text ----

  ghost predicate IsText(s: string) {
    exists d :: Clean(d) && Text(d) == s
  }

  ghost function HolesIn(s: string): multiset<string> {
    if IsText(s) then
      var d :| Clean(d) && Text(d) == s;
      multiset(Holes(d))
    else multiset{}
  }

  lemma HolesOfText(d: Doc)
    requires Clean(d)
    ensures IsText(Text(d)) && HolesIn(Text(d)) == multiset(Holes(d))
  {
    var e :| Clean(e) && Text(e) == Text(d) && HolesIn(Text(d)) == multiset(Holes(e));
    TextInjective(d, e);
  }

  /** A text without placeholders has no NUL. */
  lemma NoneIffNulFree(s: string)
    requires IsText(s)
    ensures HolesIn(s) == multiset{} <==> NulFree(s)
  {
    var d :| Clean(d) && Text(d) == s;
    HolesOfText(d);
    NulFreeText(d);
    if d.Node? {
      assert d.hole in multiset(Holes(d));
    }
  }

  // ---- the placeholders of lines ----

  ghost predicate AllTexts(ls: seq<string>) {
    forall k :: 0 <= k < |ls| ==> IsText(ls[k])
  }

  ghost function LineHoles(ls: seq<string>): multiset<string> {
    if ls == [] then multiset{} else HolesIn(ls[0]) + LineHoles(ls[1..])
  }

  lemma {:induction false} HolesOfTexts(ds: seq<Doc>)
    requires forall k :: 0 <= k < |ds| ==> Clean(ds[k])
    ensures AllTexts(Texts(ds)) && LineHoles(Texts(ds)) == AllHoles(ds)
  {
    if ds != [] {
      TextsTail(ds);
      HolesOfText(ds[0]);
      HolesOfTexts(ds[1..]);
      assert forall k :: 1 <= k < |ds| ==> Texts(ds)[k] == Texts(ds[1..])[k - 1];
    }
  }

  lemma {:induction false} SplitClean(d: Doc, q: string)
    requires Clean(d) && q != ""
    ensures forall k :: 0 <= k < |SplitDoc(d, q)| ==> Clean(SplitDoc(d, q)[k])
  {
    Extraction.PartsNulFree(d.lit, q);
    if d.Node? {
      SplitClean(d.rest, q);
    }
  }

  lemma {:induction false} JoinedClean(ds: seq<Doc>, q: string)
    requires ds != [] && NulFree(q) && forall k :: 0 <= k < |ds| ==> Clean(ds[k])
    ensures Clean(JoinDoc(ds, q))
  {
    if |ds| > 1 {
      JoinedClean(ds[1..], q);
      CleanAppend(End(q), JoinDoc(ds[1..], q));
      CleanAppend(ds[0], Append(End(q), JoinDoc(ds[1..], q)));
    }
  }

  /** Lines that are texts are joined to a text that holds what they hold. */
  lemma JoinedLines(ls: seq<string>)
    requires AllTexts(ls)
    ensures IsText(TableFences.JoinLines(ls)) && HolesIn(TableFences.JoinLines(ls)) == LineHoles(ls)
  {
    if ls == [] {
      HolesOfText(End(""));
    } else {
      var ds := DocsOf(ls);
      assert Texts(ds) == ls;
      HolesOfTexts(ds);
      JoinedClean(ds, "\n");
      JoinText(ds, "\n");
      JoinHoles(ds, "\n");
      HolesOfText(JoinDoc(ds, "\n"));
    }
  }

  ghost function DocOf(s: string): (d: Doc)
    requires IsText(s)
    ensures Clean(d) && Text(d) == s
  {
    var d :| Clean(d) && Text(d) == s;
    d
  }

  ghost function DocsOf(ls: seq<string>): (ds: seq<Doc>)
    requires AllTexts(ls)
    ensures |ds| == |ls| && forall k :: 0 <= k < |ls| ==> Clean(ds[k]) && Text(ds[k]) == ls[k]
  {
    seq(|ls|, k requires 0 <= k < |ls| => DocOf(ls[k]))
  }

  // ---- the table loop ----

  function Separators(ls: seq<string>, kind: string -> TableFences.Kind): seq<string> {
    if ls == [] then []
    else (if kind(ls[0]) == TableFences.Separator then [ls[0]] else []) + Separators(ls[1..], kind)
  }

  lemma LineHolesCons(l: string, ls: seq<string>)
    ensures LineHoles([l] + ls) == HolesIn(l) + LineHoles(ls)
  {
    assert ([l] + ls)[1..] == ls;
  }

  lemma KeptStep(ls: seq<string>, kind: string -> TableFences.Kind)
    requires ls != []
    ensures var kept := TableFences.Kept(ls[1..], kind);
            TableFences.Kept(ls, kind) == if kind(ls[0]) == TableFences.Separator then kept else [ls[0]] + kept
  {
    assert [] + TableFences.Kept(ls[1..], kind) == TableFences.Kept(ls[1..], kind);
  }

  lemma SeparatorsStep(ls: seq<string>, kind: string -> TableFences.Kind)
    requires ls != []
    ensures var rest := LineHoles(Separators(ls[1..], kind));
            LineHoles(Separators(ls, kind)) == if kind(ls[0]) == TableFences.Separator then HolesIn(ls[0]) + rest else rest
  {
    LineHolesCons(ls[0], Separators(ls[1..], kind));
    assert [] + Separators(ls[1..], kind) == Separators(ls[1..], kind);
  }

  /** What the kept lines hold and what the separators hold is all. */
  lemma {:induction false} KeptAndSeparators(ls: seq<string>, kind: string -> TableFences.Kind)
    ensures LineHoles(TableFences.Kept(ls, kind)) + LineHoles(Separators(ls, kind)) == LineHoles(ls)
  {
    if ls != [] {
      KeptAndSeparators(ls[1..], kind);
      KeptStep(ls, kind);
      SeparatorsStep(ls, kind);
      LineHolesCons(ls[0], TableFences.Kept(ls[1..], kind));
    }
  }

  predicate CleanSeparators(ls: seq<string>, kind: string -> TableFences.Kind) {
    forall k :: 0 <= k < |ls| && kind(ls[k]) == TableFences.Separator ==> NulFree(ls[k])
  }

  lemma CleanStep(ls: seq<string>, kind: string -> TableFences.Kind)
    requires ls != []
    ensures CleanSeparators(ls, kind) <==>
            (kind(ls[0]) == TableFences.Separator ==> NulFree(ls[0])) && CleanSeparators(ls[1..], kind)
  {
    if CleanSeparators(ls, kind) {
      assert forall k :: 0 <= k < |ls[1..]| ==> ls[1..][k] == ls[k + 1];
    } else {
      var k :| 0 <= k < |ls| && kind(ls[k]) == TableFences.Separator && !NulFree(ls[k]);
      assert k > 0 ==> ls[1..][k - 1] == ls[k];
    }
  }

  lemma {:induction false} SeparatorHoles(ls: seq<string>, kind: string -> TableFences.Kind)
    requires AllTexts(ls)
    ensures LineHoles(Separators(ls, kind)) == multiset{} <==> CleanSeparators(ls, kind)
  {
    if ls != [] {
      SeparatorHoles(ls[1..], kind);
      NoneIffNulFree(ls[0]);
      SeparatorsStep(ls, kind);
      CleanStep(ls, kind);
    }
  }

  lemma {:induction false} KeptTexts(ls: seq<string>, kind: string -> TableFences.Kind)
    requires AllTexts(ls)
    ensures AllTexts(TableFences.Kept(ls, kind))
  {
    if ls != [] {
      KeptTexts(ls[1..], kind);
    }
  }

  lemma RenderedStep(out: seq<TableFences.OutLine>)
    requires out != []
    ensures var l, rest := if out[0].Fence? then "```" else out[0].text, TableFences.Unfenced(out[1..]);
            && TableFences.Rendered(out) == [l] + TableFences.Rendered(out[1..])
            && TableFences.Unfenced(out) == if out[0].Fence? then rest else [l] + rest
  {
    assert [] + TableFences.Unfenced(out[1..]) == TableFences.Unfenced(out[1..]);
  }

  lemma FenceIsText()
    ensures IsText("```") && HolesIn("```") == multiset{}
  {
    HolesOfText(End("```"));
  }

  /** The added fences hold no placeholder. */
  lemma {:induction false} RenderedHoles(out: seq<TableFences.OutLine>)
    ensures LineHoles(TableFences.Rendered(out)) == LineHoles(TableFences.Unfenced(out))
  {
    if out != [] {
      RenderedStep(out);
      RenderedHoles(out[1..]);
      if out[0].Line? {
        SameCons(out[0].text, TableFences.Rendered(out[1..]), TableFences.Unfenced(out[1..]));
      } else {
        FenceIsText();
        LineHolesCons("```", TableFences.Rendered(out[1..]));
      }
    }
  }

  lemma {:induction false} RenderedTexts(out: seq<TableFences.OutLine>)
    requires AllTexts(TableFences.Unfenced(out))
    ensures AllTexts(TableFences.Rendered(out))
  {
    if out != [] {
      RenderedStep(out);
      FenceIsText();
      if out[0].Line? {
        TextsTailOf(out[0].text, TableFences.Unfenced(out[1..]));
      }
      RenderedTexts(out[1..]);
    }
  }

  lemma TextsTailOf(l: string, ls: seq<string>)
    requires AllTexts([l] + ls)
    ensures IsText(l) && AllTexts(ls)
  {
    assert ([l] + ls)[0] == l && forall k :: 0 <= k < |ls| ==> ([l] + ls)[k + 1] == ls[k];
  }

  lemma SameCons(l: string, ls: seq<string>, ms: seq<string>)
    requires LineHoles(ls) == LineHoles(ms)
    ensures LineHoles([l] + ls) == LineHoles([l] + ms)
  {
    LineHolesCons(l, ls);
    LineHolesCons(l, ms);
  }

  /** The table conversion keeps every placeholder exactly if no line that counts as a separator holds one. */
  lemma TablesKeepIff(d: Doc, kind: string -> TableFences.Kind)
    requires Clean(d) && Uncut(d, "\n")
    ensures var out := TableFences.ConvertText(Text(d), kind);
            && IsText(out)
            && (HolesIn(out) == multiset(Holes(d)) <==> CleanSeparators(Split(Text(d), "\n"), kind))
  {
    var ls := Split(Text(d), "\n");
    SplitClean(d, "\n");
    SplitDocTexts(d, "\n");
    SplitHoles(d, "\n");
    HolesOfTexts(SplitDoc(d, "\n"));
    ConvertedHoles(ls, kind);
    SeparatorHoles(ls, kind);
  }

  lemma ConvertedHoles(ls: seq<string>, kind: string -> TableFences.Kind)
    requires AllTexts(ls)
    ensures var out := TableFences.JoinLines(TableFences.Rendered(TableFences.Convert(ls, kind)));
            IsText(out) && HolesIn(out) + LineHoles(Separators(ls, kind)) == LineHoles(ls)
  {
    TableFences.OnlySeparatorsLost(ls, kind);
    KeptTexts(ls, kind);
    RenderedTexts(TableFences.Convert(ls, kind));
    RenderedHoles(TableFences.Convert(ls, kind));
    JoinedLines(TableFences.Rendered(TableFences.Convert(ls, kind)));
    KeptAndSeparators(ls, kind);
  }

  lemma BodyOneLine(h: string)
    requires IsBody(h)
    ensures Foreign("\n", Key(h))
  {
    var t: Tag, n: nat :| h == Body(t, n);
    DecShape(n);
    forall i | 0 <= i < |h| ensures h[i] != '\n' {
      assert h[i] == if i < 2 then Letters(t)[i] else Dec(n)[i - 2];
    }
  }

  /** So whatever was kept before the table conversion is kept after it. */
  lemma TablesKeep(ps: seq<string>, d: Doc, kind: string -> TableFences.Kind)
    requires Input(ps) && Kept(ps, d) && CleanSeparators(Split(Text(d), "\n"), kind)
    ensures exists e :: Kept(ps, e) && Text(e) == TableFences.ConvertText(Text(d), kind)
  {
    StagesTame(ps, false);
    forall h | h in Holes(d) ensures Foreign("\n", Key(h)) {
      assert h in multiset(Holes(d));
      TameHoles(Uncoded(ps), h);
      BodyOneLine(h);
    }
    TablesKeepIff(d, kind);
    var out := TableFences.ConvertText(Text(d), kind);
    HolesOfText(DocOf(out));
    assert Kept(ps, DocOf(out));
  }

  lemma {:induction false} TameHoles(d: Doc, h: string)
    requires Tame(d, false) && h in Holes(d)
    ensures IsBody(h)
  {
    if h != d.hole {
      TameHoles(d.rest, h);
    }
  }
}
