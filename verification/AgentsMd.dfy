/** The marker-delimited region of AGENTS.md (internal/workspace/slack_runtime_context.go, laid out by workspace.go). */
module AgentsMd {
  import opened Search
  import opened Wrappers

  const START_MARKER := "<!-- schduler-slack-context:start -->"
  const END_MARKER := "<!-- schduler-slack-context:end -->"

  datatype Failure = MarkersNotFound | MalformedStartMarker

  /** strings.TrimRight(s, "\n") */
  function TrimNewlines(s: string): (r: string)
    ensures r <= s
    ensures r == "" || r[|r| - 1] != '\n'
    ensures forall i :: |r| <= i < |s| ==> s[i] == '\n'
  {
    if s != "" && s[|s| - 1] == '\n' then TrimNewlines(s[..|s| - 1]) else s
  }

  /** ReplaceSlackContextBody, from the file's text to its new text. */
  function Replace(s: string, newInner: string, start: string, end: string): Result<string, Failure> {
    var i, j := Find(s, start), Find(s, end);
    if i < 0 || j < 0 || j <= i then Err(MarkersNotFound)
    else
      var lineEnd := Find(s[i + |start|..], "\n");
      if lineEnd < 0 then Err(MalformedStartMarker)
      else
        var contentStart := i + |start| + lineEnd + 1;
        Ok(s[..contentStart] + TrimNewlines(newInner) + "\n" + s[j..])
  }

  /** SlackContextSectionHTMLComment */
  function Section(initialInner: string, start: string, end: string): string {
    start + "\n" + TrimNewlines(initialInner) + "\n" + end + "\n\n"
  }

  // ---- markers ----

  /** One line with a "<" at the front and nowhere else. */
  predicate Marker(m: string) {
    m != "" && forall i :: 0 <= i < |m| ==> (m[i] == '<' <==> i == 0) && m[i] != '\n'
  }

  predicate Markers(start: string, end: string) {
    Marker(start) && Marker(end) && exists i :: 0 <= i < |start| && i < |end| && start[i] != end[i]
  }

  lemma RealMarkers()
    ensures Markers(START_MARKER, END_MARKER)
  {
    assert START_MARKER[28] == 's' && END_MARKER[28] == 'e';
  }

  predicate Free(s: string, m: string) {
    Find(s, m) < 0
  }

  /** No match runs from a text into a following "<". */
  lemma NoMatchIn(p: string, q: string, m: string)
    requires Marker(m) && Free(p, m) && q != "" && q[0] == '<'
    ensures forall i :: 0 <= i < |p| ==> !HasAt(p + q, i, m)
  {
    var s := p + q;
    forall i | 0 <= i < |p| ensures !HasAt(s, i, m) {
      if i + |m| <= |p| {
        assert s[i..i + |m|] == p[i..i + |m|];
        assert !HasAt(p, i, m);
      } else if i + |m| <= |s| {
        assert s[|p|] == '<';
        assert s[i..i + |m|][|p| - i] != m[|p| - i];
      }
    }
  }

  lemma PastFree(p: string, q: string, m: string)
    requires Marker(m) && Free(p, m) && q != "" && q[0] == '<'
    ensures Find(p + q, m) == if Find(q, m) < 0 then -1 else |p| + Find(q, m)
  {
    NoMatchIn(p, q, m);
    FindAfter(p, q, m);
  }

  /** The end marker does not begin inside the start marker or a text without "<" behind it. */
  lemma PastStart(start: string, t: string, end: string, q: string)
    requires Markers(start, end) && '<' !in t
    ensures var p := start + t;
            Find(p + q, end) == if Find(q, end) < 0 then -1 else |p| + Find(q, end)
  {
    var p := start + t;
    var s := p + q;
    forall i | 0 <= i < |p| ensures !HasAt(s, i, end) {
      if i == 0 {
        var k :| 0 <= k < |start| && k < |end| && start[k] != end[k];
        assert |end| <= |s| ==> s[0..|end|][k] != end[k];
      } else {
        assert s[i] == if i < |start| then start[i] else t[i - |start|];
        assert i + |end| <= |s| ==> s[i..i + |end|][0] != end[0];
      }
    }
    FindAfter(p, q, end);
  }

  lemma FoundAtFront(m: string, q: string)
    ensures Find(m + q, m) == 0
  {
    assert (m + q)[0..|m|] == m;
  }

  // ---- the document ----

  function Region(pre: string, body: string, rest: string, start: string, end: string): string {
    pre + (start + "\n" + (body + (end + rest)))
  }

  lemma FindsStart(pre: string, body: string, rest: string, start: string, end: string)
    requires Markers(start, end) && Free(pre, start)
    ensures Find(Region(pre, body, rest, start, end), start) == |pre|
  {
    var q := "\n" + (body + (end + rest));
    assert start + "\n" + (body + (end + rest)) == start + q;
    FoundAtFront(start, q);
    PastFree(pre, start + q, start);
  }

  lemma FindsEnd(pre: string, body: string, rest: string, start: string, end: string)
    requires Markers(start, end) && Free(pre, end) && Free(body, end)
    ensures Find(Region(pre, body, rest, start, end), end) == |pre| + |start| + 1 + |body|
  {
    FoundAtFront(end, rest);
    PastFree(body, end + rest, end);
    PastStart(start, "\n", end, body + (end + rest));
    PastFree(pre, start + "\n" + (body + (end + rest)), end);
  }

  lemma Cut(pre: string, body: string, rest: string, start: string, end: string)
    ensures var s, n := Region(pre, body, rest, start, end), |pre| + |start|;
            && s[..n + 1] == pre + (start + "\n")
            && s[n + 1 + |body|..] == end + rest
  {
  }

  lemma Rebuilt(pre: string, inner: string, rest: string, start: string, end: string)
    ensures pre + (start + "\n") + inner + "\n" + (end + rest) == Region(pre, inner + "\n", rest, start, end)
  {
  }

  /** A replacement overwrites what stands between the markers and nothing else. */
  lemma ReplaceRegion(pre: string, body: string, rest: string, newInner: string, start: string, end: string)
    requires Markers(start, end) && Free(pre, start) && Free(pre, end) && Free(body, end)
    ensures Replace(Region(pre, body, rest, start, end), newInner, start, end) ==
            Ok(Region(pre, TrimNewlines(newInner) + "\n", rest, start, end))
  {
    FindsStart(pre, body, rest, start, end);
    FindsEnd(pre, body, rest, start, end);
    LineEnds(pre, body, rest, start, end);
    Cut(pre, body, rest, start, end);
    ReplaceAt(Region(pre, body, rest, start, end), |pre|, |pre| + |start| + 1 + |body|, pre + (start + "\n"), end + rest,
              newInner, start, end);
    Rebuilt(pre, TrimNewlines(newInner), rest, start, end);
  }

  lemma LineEnds(pre: string, body: string, rest: string, start: string, end: string)
    ensures Find(Region(pre, body, rest, start, end)[|pre| + |start|..], "\n") == 0
  {
    assert Region(pre, body, rest, start, end)[|pre| + |start|..] == "\n" + (body + (end + rest));
    FoundAtFront("\n", body + (end + rest));
  }

  lemma ReplaceAt(s: string, i: nat, j: nat, head: string, tail: string, newInner: string, start: string, end: string)
    requires Find(s, start) == i && Find(s, end) == j && i < j <= |s| && i + |start| < |s|
    requires Find(s[i + |start|..], "\n") == 0 && s[..i + |start| + 1] == head && s[j..] == tail
    ensures Replace(s, newInner, start, end) == Ok(head + TrimNewlines(newInner) + "\n" + tail)
  {
  }

  /** What the next replacement will find between the markers, and what it will leave behind them. */
  function Shown(newInner: string, end: string): string {
    var body := TrimNewlines(newInner) + "\n";
    if Free(body, end) then body else body[..Find(body, end)]
  }

  function Residue(newInner: string, end: string): string {
    var body := TrimNewlines(newInner) + "\n";
    if Free(body, end) then "" else body[Find(body, end) + |end|..] + end
  }

  lemma ShownIsFree(newInner: string, end: string)
    ensures end != "" ==> Free(Shown(newInner, end), end)
  {
    var body := TrimNewlines(newInner) + "\n";
    var e := Find(body, end);
    if e >= 0 && end != "" {
      forall k ensures !HasAt(body[..e], k, end) {
        if 0 <= k && k + |end| <= e {
          SliceOfTake(body, e, k, k + |end|);
          assert !HasAt(body, k, end);
        }
      }
    }
  }

  lemma Regrouped(pre: string, a: string, end: string, b: string, rest: string, start: string)
    ensures Region(pre, a + end + b, rest, start, end) == Region(pre, a, b + end + rest, start, end)
  {
    assert (a + end + b) + (end + rest) == a + (end + (b + end + rest));
  }

  lemma ResidueMoves(pre: string, newInner: string, rest: string, start: string, end: string)
    ensures Region(pre, TrimNewlines(newInner) + "\n", rest, start, end) ==
            Region(pre, Shown(newInner, end), Residue(newInner, end) + rest, start, end)
  {
    var body := TrimNewlines(newInner) + "\n";
    var e := Find(body, end);
    if e >= 0 {
      CutAt(body, e, end);
      Regrouped(pre, body[..e], end, body[e + |end|..], rest, start);
    } else {
      assert "" + rest == rest;
    }
  }

  // ---- a whole session of replacements ----

  /** One update after the other, up to the first failure. */
  function Each(s: string, xs: seq<string>, step: (string, string) -> Result<string, Failure>): Result<string, Failure>
    decreases |xs|
  {
    if xs == [] then Ok(s)
    else
      match step(s, xs[0])
      case Ok(t) => Each(t, xs[1..], step)
      case Err(e) => Err(e)
  }

  function Replacer(start: string, end: string): (string, string) -> Result<string, Failure> {
    (s, x) => Replace(s, x, start, end)
  }

  function ReplaceEach(s: string, inners: seq<string>, start: string, end: string): Result<string, Failure> {
    Each(s, inners, Replacer(start, end))
  }

  /** The later texts' pieces in front of the earlier ones'. */
  function Gathered(inners: seq<string>, f: string -> string): string {
    if inners == [] then "" else Gathered(inners[1..], f) + f(inners[0])
  }

  function ResidueOf(end: string): string -> string {
    x => Residue(x, end)
  }

  function Residues(inners: seq<string>, end: string): string {
    Gathered(inners, ResidueOf(end))
  }

  /** What stands behind the region after a sequence of replacements. */
  function RestAfter(rest: string, inners: seq<string>, f: string -> string): string
    decreases |inners|
  {
    if |inners| <= 1 then rest else RestAfter(f(inners[0]) + rest, inners[1..], f)
  }

  lemma {:induction false} RestIsGathered(rest: string, inners: seq<string>, f: string -> string)
    requires inners != []
    ensures RestAfter(rest, inners, f) == Gathered(inners[..|inners| - 1], f) + rest
    decreases |inners|
  {
    if |inners| == 1 {
      assert inners[..0] == [] && "" + rest == rest;
    } else {
      RestIsGathered(f(inners[0]) + rest, inners[1..], f);
      assert inners[..|inners| - 1][1..] == inners[1..][..|inners| - 2];
    }
  }

  /** One update of a document of the shape `doc` shows the plain new text and leaves the rest alone. */
  ghost predicate Shows(step: (string, string) -> Result<string, Failure>, doc: (string, string) -> string,
                        plain: string -> string, free: string -> bool) {
    forall body, rest, x {:trigger step(doc(body, rest), x)} :: free(body) ==> step(doc(body, rest), x) == Ok(doc(plain(x), rest))
  }

  /** Seen by the next update, the plain text is a part without marker, with a residue behind it. */
  ghost predicate Leaves(doc: (string, string) -> string, plain: string -> string, shown: string -> string,
                         residue: string -> string, free: string -> bool) {
    forall rest, x {:trigger doc(plain(x), rest)} :: doc(plain(x), rest) == doc(shown(x), residue(x) + rest) && free(shown(x))
  }

  lemma {:induction false} EachReplaces(step: (string, string) -> Result<string, Failure>, doc: (string, string) -> string,
                                        plain: string -> string, shown: string -> string, residue: string -> string,
                                        free: string -> bool, body: string, rest: string, xs: seq<string>)
    requires Shows(step, doc, plain, free) && Leaves(doc, plain, shown, residue, free) && free(body) && xs != []
    ensures Each(doc(body, rest), xs, step) == Ok(doc(plain(xs[|xs| - 1]), RestAfter(rest, xs, residue)))
    decreases |xs|
  {
    assert step(doc(body, rest), xs[0]) == Ok(doc(plain(xs[0]), rest));
    if |xs| > 1 {
      EachReplaces(step, doc, plain, shown, residue, free, shown(xs[0]), residue(xs[0]) + rest, xs[1..]);
    } else {
      assert xs[1..] == [];
    }
  }

  function Documents(pre: string, start: string, end: string): (string, string) -> string {
    (body, rest) => Region(pre, body, rest, start, end)
  }

  function Plain(): string -> string {
    x => TrimNewlines(x) + "\n"
  }

  function ShownOf(end: string): string -> string {
    x => Shown(x, end)
  }

  function FreeOf(end: string): string -> bool {
    s => Free(s, end)
  }

  lemma RegionsShow(pre: string, start: string, end: string)
    requires Markers(start, end) && Free(pre, start) && Free(pre, end)
    ensures Shows(Replacer(start, end), Documents(pre, start, end), Plain(), FreeOf(end))
  {
    forall body, rest, x | FreeOf(end)(body)
      ensures Replacer(start, end)(Documents(pre, start, end)(body, rest), x) == Ok(Documents(pre, start, end)(Plain()(x), rest))
    {
      StepIsPlain(pre, body, rest, x, start, end);
    }
  }

  lemma RegionsLeave(pre: string, start: string, end: string)
    requires end != ""
    ensures Leaves(Documents(pre, start, end), Plain(), ShownOf(end), ResidueOf(end), FreeOf(end))
  {
    forall rest, x
      ensures var doc := Documents(pre, start, end); doc(Plain()(x), rest) == doc(ShownOf(end)(x), ResidueOf(end)(x) + rest)
      ensures FreeOf(end)(ShownOf(end)(x))
    {
      PlainIsShown(pre, rest, x, start, end);
      ShownIsFree(x, end);
    }
  }

  lemma StepIsPlain(pre: string, body: string, rest: string, x: string, start: string, end: string)
    requires Markers(start, end) && Free(pre, start) && Free(pre, end) && Free(body, end)
    ensures Replacer(start, end)(Documents(pre, start, end)(body, rest), x) == Ok(Documents(pre, start, end)(Plain()(x), rest))
  {
    ReplaceRegion(pre, body, rest, x, start, end);
  }

  lemma PlainIsShown(pre: string, rest: string, x: string, start: string, end: string)
    ensures var doc := Documents(pre, start, end);
            doc(Plain()(x), rest) == doc(ShownOf(end)(x), ResidueOf(end)(x) + rest)
  {
    ResidueMoves(pre, x, rest, start, end);
  }

  /** Replacements never fail; only the last one stays in the region, and all residues of the others gather behind it. */
  lemma AllReplacements(pre: string, body: string, rest: string, inners: seq<string>, start: string, end: string)
    requires Markers(start, end) && Free(pre, start) && Free(pre, end) && Free(body, end) && inners != []
    ensures var last := inners[|inners| - 1];
            ReplaceEach(Region(pre, body, rest, start, end), inners, start, end) ==
            Ok(Region(pre, TrimNewlines(last) + "\n", Residues(inners[..|inners| - 1], end) + rest, start, end))
  {
    RegionsShow(pre, start, end);
    RegionsLeave(pre, start, end);
    EachReplaces(Replacer(start, end), Documents(pre, start, end), Plain(), ShownOf(end), ResidueOf(end), FreeOf(end), body, rest, inners);
    RestIsGathered(rest, inners, ResidueOf(end));
  }

  /** The trailing newlines that are trimmed, and the one that is added, are no part of a marker. */
  lemma TrimmedFree(s: string, m: string)
    requires Marker(m)
    ensures Free(TrimNewlines(s) + "\n", m) <==> Free(s, m)
  {
    var t := TrimNewlines(s);
    var b := t + "\n";
    forall i ensures HasAt(b, i, m) <==> HasAt(s, i, m) {
      SameMatch(t, b, i, m);
      SameMatch(t, s, i, m);
    }
  }

  lemma SameMatch(t: string, s: string, i: int, m: string)
    requires Marker(m) && t <= s && forall k :: |t| <= k < |s| ==> s[k] == '\n'
    ensures HasAt(s, i, m) <==> HasAt(t, i, m)
  {
    if 0 <= i && i + |m| <= |t| {
      assert s[i..i + |m|] == t[i..i + |m|];
    } else if 0 <= i && i + |m| <= |s| {
      assert s[i..i + |m|][|m| - 1] == s[i + |m| - 1] == '\n';
    }
  }

  lemma {:induction false} NoResidues(inners: seq<string>, end: string)
    requires Marker(end)
    ensures Residues(inners, end) == "" <==> forall k :: 0 <= k < |inners| ==> Free(inners[k], end)
  {
    if inners != [] {
      NoResidues(inners[1..], end);
      TrimmedFree(inners[0], end);
      if forall k :: 0 <= k < |inners| ==> Free(inners[k], end) {
        assert forall k :: 0 <= k < |inners[1..]| ==> Free(inners[1..][k], end);
      } else if Free(inners[0], end) {
        var k :| 0 <= k < |inners| && !Free(inners[k], end);
        assert !Free(inners[1..][k - 1], end);
      }
    }
  }

  /** Last write wins exactly if no earlier text carries the end marker. */
  lemma LastWriteWins(pre: string, body: string, rest: string, inners: seq<string>, start: string, end: string)
    requires Markers(start, end) && Free(pre, start) && Free(pre, end) && Free(body, end) && inners != []
    ensures var doc, n := Region(pre, body, rest, start, end), |inners| - 1;
            ReplaceEach(doc, inners, start, end) == Replace(doc, inners[n], start, end) <==>
            forall k :: 0 <= k < n ==> Free(inners[k], end)
  {
    var n := |inners| - 1;
    AllReplacements(pre, body, rest, inners, start, end);
    ReplaceRegion(pre, body, rest, inners[n], start, end);
    NoResidues(inners[..n], end);
    SameLength(pre, TrimNewlines(inners[n]) + "\n", Residues(inners[..n], end), rest, start, end);
    AllInFront(inners, n, end);
  }

  lemma AllInFront(inners: seq<string>, n: nat, end: string)
    requires n <= |inners|
    ensures (forall k :: 0 <= k < |inners[..n]| ==> Free(inners[..n][k], end)) <==> (forall k :: 0 <= k < n ==> Free(inners[k], end))
  {
    assert forall k :: 0 <= k < n ==> inners[..n][k] == inners[k];
  }

  lemma SameLength(pre: string, body: string, x: string, rest: string, start: string, end: string)
    ensures Region(pre, body, x + rest, start, end) == Region(pre, body, rest, start, end) <==> x == ""
  {
    if x == "" {
      assert x + rest == rest;
    } else {
      assert |Region(pre, body, x + rest, start, end)| > |Region(pre, body, rest, start, end)|;
    }
  }

  /** The file as CreateSessionWorkspace writes it, with anything before that holds no marker and anything after. */
  lemma FreshWorkspace(pre: string, suffix: string, inners: seq<string>)
    requires Free(pre, START_MARKER) && Free(pre, END_MARKER) && inners != []
    ensures var doc, n := pre + Section("", START_MARKER, END_MARKER) + suffix, |inners| - 1;
            && ReplaceEach(doc, inners, START_MARKER, END_MARKER) ==
               Ok(pre + START_MARKER + "\n" + TrimNewlines(inners[n]) + "\n" + END_MARKER + Residues(inners[..n], END_MARKER) + "\n\n" + suffix)
            && (ReplaceEach(doc, inners, START_MARKER, END_MARKER) == Replace(doc, inners[n], START_MARKER, END_MARKER) <==>
                forall k :: 0 <= k < n ==> Free(inners[k], END_MARKER))
  {
    var n := |inners| - 1;
    RealMarkers();
    NewlineFree();
    FreshIsRegion(pre, suffix, START_MARKER, END_MARKER);
    AllReplacements(pre, "\n", "\n\n" + suffix, inners, START_MARKER, END_MARKER);
    LastWriteWins(pre, "\n", "\n\n" + suffix, inners, START_MARKER, END_MARKER);
    Flat(pre, TrimNewlines(inners[n]), Residues(inners[..n], END_MARKER), suffix, START_MARKER, END_MARKER);
  }

  /** Replacing a section's text gives the section as it would have been written with the new text in the first place. */
  lemma SectionReplaced(pre: string, x: string, y: string, suffix: string)
    requires Free(pre, START_MARKER) && Free(pre, END_MARKER) && Free(TrimNewlines(x) + "\n", END_MARKER)
    ensures Replace(pre + Section(x, START_MARKER, END_MARKER) + suffix, y, START_MARKER, END_MARKER) ==
            Ok(pre + Section(y, START_MARKER, END_MARKER) + suffix)
  {
    RealMarkers();
    SectionIsRegion(pre, x, suffix, START_MARKER, END_MARKER);
    SectionIsRegion(pre, y, suffix, START_MARKER, END_MARKER);
    ReplaceRegion(pre, TrimNewlines(x) + "\n", "\n\n" + suffix, y, START_MARKER, END_MARKER);
  }

  lemma SectionIsRegion(pre: string, x: string, suffix: string, start: string, end: string)
    ensures pre + Section(x, start, end) + suffix == Region(pre, TrimNewlines(x) + "\n", "\n\n" + suffix, start, end)
  {
  }

  lemma NewlineFree()
    ensures Free("\n", END_MARKER)
  {
  }

  lemma FreshIsRegion(pre: string, suffix: string, start: string, end: string)
    ensures pre + Section("", start, end) + suffix == Region(pre, "\n", "\n\n" + suffix, start, end)
  {
    assert Section("", start, end) == start + "\n" + "" + "\n" + end + "\n\n";
  }

  lemma Flat(pre: string, inner: string, r: string, suffix: string, start: string, end: string)
    ensures Region(pre, inner + "\n", r + ("\n\n" + suffix), start, end) ==
            pre + start + "\n" + inner + "\n" + end + r + "\n\n" + suffix
  {
  }

  // ---- when a replacement is refused ----

  /** The first occurrence of a marker. */
  predicate FirstAt(s: string, m: string, i: int) {
    HasAt(s, i, m) && forall k :: 0 <= k < i ==> !HasAt(s, k, m)
  }

  lemma FindsFirst(s: string, m: string, i: int)
    ensures FirstAt(s, m, i) <==> Find(s, m) == i && i >= 0
  {
    if FirstAt(s, m, i) {
      FindIs(s, m, i);
    }
  }

  /** A replacement succeeds exactly if the first end marker stands behind the first start marker and a line ends behind the latter. */
  lemma SucceedsIff(s: string, newInner: string, start: string, end: string)
    requires start != "" && end != ""
    ensures Replace(s, newInner, start, end) == Err(MarkersNotFound) <==>
            !(exists i, j :: FirstAt(s, start, i) && FirstAt(s, end, j) && i < j)
    ensures Replace(s, newInner, start, end) == Err(MalformedStartMarker) <==>
            exists i, j :: FirstAt(s, start, i) && FirstAt(s, end, j) && i < j && '\n' !in s[i + |start|..]
    ensures Replace(s, newInner, start, end).Ok? <==>
            exists i, j :: FirstAt(s, start, i) && FirstAt(s, end, j) && i < j && '\n' in s[i + |start|..]
  {
    var i, j := Find(s, start), Find(s, end);
    forall k ensures FirstAt(s, start, k) <==> i == k && k >= 0 {
      FindsFirst(s, start, k);
    }
    forall k ensures FirstAt(s, end, k) <==> j == k && k >= 0 {
      FindsFirst(s, end, k);
    }
    if 0 <= i < j {
      assert FirstAt(s, start, i) && FirstAt(s, end, j);
      LineEndIff(s[i + |start|..]);
    }
  }

  lemma LineEndIff(t: string)
    ensures Find(t, "\n") >= 0 <==> '\n' in t
  {
    if '\n' in t {
      var k :| 0 <= k < |t| && t[k] == '\n';
      assert HasAt(t, k, "\n");
    } else {
      forall k ensures !HasAt(t, k, "\n") {
        assert 0 <= k < |t| ==> t[k] in t;
      }
    }
  }

  // ---- an end marker on the start marker's own line ----

  /** Where the content begins: behind the line of the start marker. */
  function ContentStart(s: string, start: string): int {
    var i := Find(s, start);
    if i < 0 || i + |start| > |s| then -1
    else
      var lineEnd := Find(s[i + |start|..], "\n");
      if lineEnd < 0 then -1 else i + |start| + lineEnd + 1
  }

  lemma ReplacedParts(s: string, newInner: string, start: string, end: string)
    requires start != "" && end != "" && Replace(s, newInner, start, end).Ok?
    ensures var c, j := ContentStart(s, start), Find(s, end);
            && 0 <= c <= |s| && 0 <= j <= |s|
            && Replace(s, newInner, start, end) == Ok(s[..c] + TrimNewlines(newInner) + "\n" + s[j..])
  {
    var i := Find(s, start);
    assert HasAt(s, i, start);
    var lineEnd := Find(s[i + |start|..], "\n");
    assert HasAt(s[i + |start|..], lineEnd, "\n");
    assert HasAt(s, Find(s, end), end);
  }

  predicate OverwritesAt(s: string, r: string, x: string, pre: string, region: string, post: string) {
    s == pre + region + post && r == pre + x + post
  }

  /** The new text is the old one with some stretch of it replaced by `x`. */
  ghost predicate Overwrites(s: string, r: string, x: string) {
    exists pre, region, post :: OverwritesAt(s, r, x, pre, region, post)
  }

  /**
   A successful replacement puts the new text in place of a stretch of the old one exactly if the end marker is
   not on the start marker's line; otherwise the bytes from the end marker to the end of that line are there twice.
   */
  lemma KeepsOnceIff(s: string, newInner: string, start: string, end: string)
    requires start != "" && end != "" && Replace(s, newInner, start, end).Ok?
    ensures var c, j, r := ContentStart(s, start), Find(s, end), Replace(s, newInner, start, end).value;
            && 0 <= c <= |s| && 0 <= j <= |s|
            && (Overwrites(s, r, TrimNewlines(newInner) + "\n") <==> j >= c)
            && (j < c ==> r == s[..j] + s[j..c] + TrimNewlines(newInner) + "\n" + s[j..c] + s[c..] && |r| > |s|)
  {
    var c, j, x := ContentStart(s, start), Find(s, end), TrimNewlines(newInner);
    ReplacedParts(s, newInner, start, end);
    Joined(s[..c], x, "\n");
    OverwritesIff(s, x + "\n", c, j);
    if j < c {
      LineTwice(s, x, c, j);
    }
  }

  lemma OverwritesIff(s: string, x: string, c: nat, j: nat)
    requires c <= |s| && j <= |s|
    ensures Overwrites(s, s[..c] + x + s[j..], x) <==> j >= c
  {
    var r := s[..c] + x + s[j..];
    if j >= c {
      assert s == s[..c] + s[c..j] + s[j..];
      assert OverwritesAt(s, r, x, s[..c], s[c..j], s[j..]);
    } else {
      assert |r| > |s| + |x|;
    }
  }

  lemma LineTwice(s: string, x: string, c: nat, j: nat)
    requires j < c <= |s|
    ensures s[..c] + x + "\n" + s[j..] == s[..j] + s[j..c] + x + "\n" + s[j..c] + s[c..]
  {
    assert s[..c] == s[..j] + s[j..c];
    assert s[j..] == s[j..c] + s[c..];
    Joined(s[..j] + s[j..c] + x + "\n", s[j..c], s[c..]);
  }

  lemma Joined(a: string, b: string, c: string)
    ensures a + (b + c) == a + b + c
  {
  }

  /** Both markers on one line: the line's end marker stays and comes a second time. */
  lemma EndOnStartLine(newInner: string)
    ensures var s := START_MARKER + END_MARKER + "\n";
            Replace(s, newInner, START_MARKER, END_MARKER) == Ok(s + TrimNewlines(newInner) + "\n" + END_MARKER + "\n")
  {
    RealMarkers();
    SameLine(START_MARKER, END_MARKER, newInner);
  }

  lemma SameLine(start: string, end: string, newInner: string)
    requires Markers(start, end)
    ensures var s := start + end + "\n";
            Replace(s, newInner, start, end) == Ok(s + TrimNewlines(newInner) + "\n" + end + "\n")
  {
    var s := start + end + "\n";
    SameLineFinds(start, end);
    assert ContentStart(s, start) == |s|;
    ReplacedParts(s, newInner, start, end);
    SameLineParts(start, end);
    Joined(s + TrimNewlines(newInner) + "\n", end, "\n");
  }

  lemma SameLineParts(start: string, end: string)
    ensures var s := start + end + "\n";
            s[..|s|] == s && s[|start|..] == end + "\n"
  {
  }

  lemma SameLineFinds(start: string, end: string)
    requires Markers(start, end)
    ensures var s := start + end + "\n";
            Find(s, start) == 0 && Find(s, end) == |start| && Find(s[|start|..], "\n") == |end|
  {
    var q := end + "\n";
    Joined(start, end, "\n");
    SameLineParts(start, end);
    FoundAtFront(start, q);
    PastStart(start, "", end, q);
    FoundAtFront(end, "\n");
    assert start + "" == start && q + "" == q;
    LineBreakAt(end, "");
  }

  lemma LineBreakAt(t: string, q: string)
    requires '\n' !in t
    ensures Find(t + "\n" + q, "\n") == |t|
  {
    var s := t + "\n" + q;
    forall k | 0 <= k < |t| ensures !HasAt(s, k, "\n") {
      assert s[k] == t[k];
    }
    FindIs(s, "\n", |t|);
  }
}
