/**
 Placeholders of the form NUL, two letters, a decimal number, NUL, as internal/slackmrkdwn/format.go
 uses them, and texts seen as literals with holes in between.
 */
module Placeholders {
  import opened Search

  const NUL := '\0'

  predicate NulFree(s: string) {
    NUL !in s
  }

  // ---- decimal numbers ----

  function Digit(n: nat): char
    requires n < 10
  {
    '0' + n as char
  }

  /** fmt's %d for a non-negative number */
  function Dec(n: nat): string {
    if n < 10 then [Digit(n)] else Dec(n / 10) + [Digit(n % 10)]
  }

  lemma DigitInjective(m: nat, n: nat)
    requires m < 10 && n < 10 && Digit(m) == Digit(n)
    ensures m == n
  {
  }

  lemma {:induction false} DecInjective(m: nat, n: nat)
    requires Dec(m) == Dec(n)
    ensures m == n
  {
    DecShape(m);
    DecShape(n);
    var k := |Dec(m)| - 1;
    assert Dec(m)[k] == Digit(m % 10) && Dec(n)[k] == Digit(n % 10);
    DigitInjective(m % 10, n % 10);
    if m >= 10 {
      assert Dec(m)[..k] == Dec(m / 10) && Dec(n)[..k] == Dec(n / 10);
      DecInjective(m / 10, n / 10);
    }
  }

  lemma {:induction false} DecShape(n: nat)
    ensures |Dec(n)| >= 1 && (|Dec(n)| == 1 <==> n < 10)
    ensures forall i :: 0 <= i < |Dec(n)| ==> '0' <= Dec(n)[i] <= '9'
  {
    if n >= 10 {
      DecShape(n / 10);
    }
  }

  /** A decimal number read from the left. */
  function Value(s: string): int {
    if s == "" then 0 else Value(s[..|s| - 1]) * 10 + (s[|s| - 1] as int - '0' as int)
  }

  lemma {:induction false} DecValue(n: nat)
    ensures Value(Dec(n)) == n
  {
    DecShape(n);
    var k := |Dec(n)| - 1;
    if n < 10 {
      assert Dec(n)[..0] == "";
    } else {
      DecValue(n / 10);
      assert Dec(n)[..k] == Dec(n / 10);
    }
  }

  // ---- tags and bodies ----

  datatype Tag = ST | IC | CB

  function Letters(t: Tag): string {
    match t
    case ST => "ST"
    case IC => "IC"
    case CB => "CB"
  }

  function Body(t: Tag, n: nat): string {
    Letters(t) + Dec(n)
  }

  function Placeholder(t: Tag, n: nat): string {
    [NUL] + Body(t, n) + [NUL]
  }

  lemma BodyInjective(t: Tag, m: nat, u: Tag, n: nat)
    ensures Body(t, m) == Body(u, n) <==> t == u && m == n
  {
    if Body(t, m) == Body(u, n) {
      assert Letters(t) == Body(t, m)[..2] && Letters(u) == Body(u, n)[..2];
      assert Letters(t)[0] == Letters(u)[0] && Letters(t)[1] == Letters(u)[1];
      assert Dec(m) == Body(t, m)[2..] && Dec(n) == Body(u, n)[2..];
      DecInjective(m, n);
    }
  }

  predicate PlainChar(c: char) {
    c != NUL && c != '`' && c != '<'
  }

  lemma BodyChars(t: Tag, n: nat)
    ensures forall i :: 0 <= i < |Body(t, n)| ==> PlainChar(Body(t, n)[i])
    ensures NulFree(Body(t, n))
  {
    DecShape(n);
    assert forall i :: 0 <= i < 2 ==> Letters(t)[i] in {'S', 'T', 'I', 'C', 'B'};
  }

  ghost predicate IsBody(s: string) {
    exists t: Tag, n: nat :: s == Body(t, n)
  }

  /** A text that no body can be part of: it holds a backtick or a "<". */
  predicate Marked(s: string) {
    exists i :: 0 <= i < |s| && (s[i] == '`' || s[i] == '<')
  }

  lemma MarkedNotBody(s: string)
    requires Marked(s)
    ensures !IsBody(s)
  {
    forall t: Tag, n: nat ensures s != Body(t, n) {
      BodyChars(t, n);
    }
  }

  // ---- literals and holes ----

  /** A text: a literal, then holes (by their bodies) each followed by a literal. */
  datatype Doc = End(lit: string) | Node(lit: string, hole: string, rest: Doc)

  function Text(d: Doc): string {
    match d
    case End(l) => l
    case Node(l, h, r) => l + [NUL] + h + [NUL] + Text(r)
  }

  function Holes(d: Doc): seq<string> {
    match d
    case End(_) => []
    case Node(_, h, r) => [h] + Holes(r)
  }

  predicate Clean(d: Doc) {
    match d
    case End(l) => NulFree(l)
    case Node(l, h, r) => NulFree(l) && NulFree(h) && Clean(r)
  }

  function Append(d: Doc, e: Doc): Doc {
    match d
    case End(l) =>
      (match e
       case End(m) => End(l + m)
       case Node(m, h, r) => Node(l + m, h, r))
    case Node(l, h, r) => Node(l, h, Append(r, e))
  }

  lemma TextAppend(d: Doc, e: Doc)
    ensures Text(Append(d, e)) == Text(d) + Text(e)
  {
    match d
    case End(l) =>
    case Node(l, h, r) =>
      TextAppend(r, e);
      assert Text(Append(d, e)) == l + [NUL] + h + [NUL] + (Text(r) + Text(e));
  }

  lemma AppendAssoc(d: Doc, e: Doc, f: Doc)
    ensures Append(Append(d, e), f) == Append(d, Append(e, f))
  {
    if d.End? {
      if e.End? {
        assert d.lit + (e.lit + f.lit) == (d.lit + e.lit) + f.lit;
      }
    } else {
      AppendAssoc(d.rest, e, f);
    }
  }

  lemma AppendEmpty(d: Doc)
    ensures Append(d, End("")) == d && Append(End(""), d) == d
  {
    if d.Node? {
      AppendEmpty(d.rest);
      assert "" + d.lit == d.lit;
    } else {
      assert d.lit + "" == d.lit && "" + d.lit == d.lit;
    }
  }

  lemma HolesAppend(d: Doc, e: Doc)
    ensures Holes(Append(d, e)) == Holes(d) + Holes(e)
  {
    if d.Node? {
      HolesAppend(d.rest, e);
    }
  }

  lemma CleanAppend(d: Doc, e: Doc)
    requires Clean(d) && Clean(e)
    ensures Clean(Append(d, e))
  {
  }

  // ---- first-match replacement on texts with holes ----

  /** The literals that stand between two holes are not bodies themselves. */
  ghost predicate SafeRest(d: Doc) {
    d.Node? ==> !IsBody(d.lit) && SafeRest(d.rest)
  }

  ghost predicate Safe(d: Doc) {
    d.Node? ==> SafeRest(d.rest)
  }

  function ReplaceHole(d: Doc, b: string, rep: Doc): Doc {
    match d
    case End(_) => d
    case Node(l, h, r) =>
      if h == b then Append(End(l), Append(rep, r)) else Node(l, h, ReplaceHole(r, b, rep))
  }

  /** A NUL-terminated word at the front of a text is unique. */
  lemma SameWord(x: string, y: string, u: string, v: string)
    requires NulFree(x) && NulFree(y) && x + [NUL] + u == y + [NUL] + v
    ensures x == y
  {
    var s, t := x + [NUL] + u, y + [NUL] + v;
    assert forall i :: 0 <= i < |x| ==> s[i] == x[i] != NUL;
    assert forall i :: 0 <= i < |y| ==> t[i] == y[i] != NUL;
    assert s[|x|] == NUL && t[|y|] == NUL;
    assert |x| == |y|;
    assert x == s[..|x|] && y == t[..|y|];
  }

  // ---- a text with holes is determined by its characters ----

  lemma FirstNul(l: string, m: string, u: string, v: string)
    requires NulFree(l) && NulFree(m) && l + [NUL] + u == m + [NUL] + v
    ensures l == m && u == v
  {
    SameWord(l, m, u, v);
    assert u == (l + [NUL] + u)[|l| + 1..] && v == (m + [NUL] + v)[|m| + 1..];
  }

  lemma {:induction false} TextInjective(d: Doc, e: Doc)
    requires Clean(d) && Clean(e) && Text(d) == Text(e)
    ensures d == e
  {
    if d.Node? && e.Node? {
      assert Text(d) == d.lit + [NUL] + (d.hole + [NUL] + Text(d.rest));
      assert Text(e) == e.lit + [NUL] + (e.hole + [NUL] + Text(e.rest));
      FirstNul(d.lit, e.lit, d.hole + [NUL] + Text(d.rest), e.hole + [NUL] + Text(e.rest));
      FirstNul(d.hole, e.hole, Text(d.rest), Text(e.rest));
      TextInjective(d.rest, e.rest);
    }
  }

  // ---- searching for a placeholder ----

  function Key(b: string): string {
    [NUL] + b + [NUL]
  }

  /** Where a search for a placeholder can match at a given NUL: exactly if the word after it is the body. */
  lemma MatchAtNul(p: string, w: string, q: string, b: string)
    requires NulFree(w) && NulFree(b)
    ensures HasAt(p + [NUL] + w + [NUL] + q, |p|, Key(b)) <==> w == b
  {
    var s := p + [NUL] + w + [NUL] + q;
    assert s[|p|..] == [NUL] + (w + [NUL] + q);
    if HasAt(s, |p|, Key(b)) {
      var v := s[|p| + |b| + 2..];
      assert s == s[..|p|] + s[|p|..|p| + |b| + 2] + v;
      assert s[|p| + 1..] == b + [NUL] + v;
      assert s[|p| + 1..] == w + [NUL] + q;
      SameWord(w, b, q, v);
    }
    if w == b {
      assert s[|p|..|p| + |Key(b)|] == Key(b);
    }
  }

  lemma NoMatchWithoutNul(s: string, i: int, b: string)
    requires 0 <= i < |s| && s[i] != NUL
    ensures !HasAt(s, i, Key(b))
  {
    assert Key(b)[0] == NUL;
  }

  /** What follows a hole does not look like the end of a match for `b`. */
  lemma NoMatchAtClosing(p: string, r: Doc, b: string)
    requires NulFree(b) && Clean(r) && (r.Node? ==> r.lit != b)
    ensures !HasAt(p + [NUL] + Text(r), |p|, Key(b))
  {
    var s := p + [NUL] + Text(r);
    match r
    case End(l) =>
      assert Key(b)[|b| + 1] == NUL;
    case Node(l, h, r2) =>
      var q := h + [NUL] + Text(r2);
      assert s == p + [NUL] + l + [NUL] + q;
      MatchAtNul(p, l, q, b);
  }

  /** No match begins in a literal or in a hole with another body. */
  lemma NoMatchInside(l: string, h: string, r: Doc, b: string, i: int)
    requires NulFree(l) && NulFree(h) && NulFree(b) && Clean(r) && h != b && (r.Node? ==> r.lit != b)
    requires 0 <= i < |l| + |h| + 2
    ensures !HasAt(l + [NUL] + h + [NUL] + Text(r), i, Key(b))
  {
    var s := l + [NUL] + h + [NUL] + Text(r);
    if i == |l| {
      MatchAtNul(l, h, Text(r), b);
    } else if i == |l| + |h| + 1 {
      NoMatchAtClosing(l + [NUL] + h, r, b);
    } else if i < |l| {
      assert s[i] == l[i];
      NoMatchWithoutNul(s, i, b);
    } else {
      assert s[i] == h[i - |l| - 1];
      NoMatchWithoutNul(s, i, b);
    }
  }

  /** The search passes over a literal and a hole with another body. */
  lemma FindPastHole(l: string, h: string, r: Doc, b: string)
    requires NulFree(l) && NulFree(h) && NulFree(b) && Clean(r) && h != b && (r.Node? ==> r.lit != b)
    ensures var f, p := Find(Text(r), Key(b)), l + [NUL] + h + [NUL];
            Find(p + Text(r), Key(b)) == if f < 0 then -1 else |p| + f
  {
    var p := l + [NUL] + h + [NUL];
    forall i | 0 <= i < |p| ensures !HasAt(p + Text(r), i, Key(b)) {
      NoMatchInside(l, h, r, b, i);
    }
    FindAfter(p, Text(r), Key(b));
  }

  /** Replacing the first match at the first hole. */
  lemma ReplaceAtFirstHole(l: string, b: string, q: string, rep: string)
    requires NulFree(l) && NulFree(b)
    ensures ReplaceFirst(l + [NUL] + b + [NUL] + q, Key(b), rep) == l + rep + q
  {
    var s := l + [NUL] + b + [NUL] + q;
    MatchAtNul(l, b, q, b);
    forall i | 0 <= i < |l| ensures !HasAt(s, i, Key(b)) {
      assert s[i] == l[i];
      NoMatchWithoutNul(s, i, b);
    }
    FindIs(s, Key(b), |l|);
    assert s[|l| + |Key(b)|..] == q;
  }

  lemma SkipHole(l: string, h: string, r: Doc, b: string, rep: Doc)
    requires NulFree(l) && NulFree(h) && NulFree(b) && Clean(r) && h != b && (r.Node? ==> r.lit != b)
    ensures ReplaceFirst(l + [NUL] + h + [NUL] + Text(r), Key(b), Text(rep)) ==
            l + [NUL] + h + [NUL] + ReplaceFirst(Text(r), Key(b), Text(rep))
  {
    FindPastHole(l, h, r, b);
    ReplaceShift(l + [NUL] + h + [NUL], Text(r), Key(b), Text(rep));
  }

  lemma FillHole(l: string, b: string, r: Doc, rep: Doc)
    requires NulFree(l) && NulFree(b)
    ensures ReplaceFirst(l + [NUL] + b + [NUL] + Text(r), Key(b), Text(rep)) == Text(Append(End(l), Append(rep, r)))
  {
    ReplaceAtFirstHole(l, b, Text(r), Text(rep));
    TextAppend(rep, r);
    TextAppend(End(l), Append(rep, r));
    assert l + (Text(rep) + Text(r)) == l + Text(rep) + Text(r);
  }

  /** Before the first hole with this body, or anywhere if there is none, a literal between two holes is that body itself. */
  predicate Mistaken(d: Doc, b: string) {
    d.Node? && d.hole != b && d.rest.Node? && (d.rest.lit == b || Mistaken(d.rest, b))
  }

  lemma {:induction false} ReplaceUnmistaken(d: Doc, b: string, rep: Doc)
    requires Clean(d) && NulFree(b) && !Mistaken(d, b)
    ensures ReplaceFirst(Text(d), Key(b), Text(rep)) == Text(ReplaceHole(d, b, rep))
  {
    match d
    case End(l) =>
      forall i | 0 <= i < |l| ensures !HasAt(l, i, Key(b)) {
        NoMatchWithoutNul(l, i, b);
      }
    case Node(l, h, r) =>
      if h == b {
        FillHole(l, b, r, rep);
      } else {
        SkipHole(l, h, r, b, rep);
        ReplaceUnmistaken(r, b, rep);
      }
  }

  /** A literal that reads like the inside of a placeholder is taken for it together with the NULs around it. */
  lemma FalseMatch(x: string, h: string, b: string, rest: string, rep: string)
    requires NulFree(x) && NulFree(h) && NulFree(b) && h != b
    ensures ReplaceFirst(x + [NUL] + h + [NUL] + b + [NUL] + rest, Key(b), rep) == x + [NUL] + h + rep + rest
  {
    var p := x + [NUL] + h;
    var s := p + [NUL] + b + [NUL] + rest;
    MatchAtNul(p, b, rest, b);
    forall i | 0 <= i < |p| ensures !HasAt(s, i, Key(b)) {
      if i == |x| {
        MatchAtNul(x, h, b + [NUL] + rest, b);
        assert s == x + [NUL] + h + [NUL] + (b + [NUL] + rest);
      } else {
        NoMatchWithoutNul(s, i, b);
      }
    }
    FindIs(s, Key(b), |p|);
    assert s[|p| + |Key(b)|..] == rest && s[..|p|] == p;
  }

  lemma DifferAt(p: string, x: string, y: string)
    requires x != "" && y != "" && x[0] != y[0]
    ensures p + x != p + y
  {
    assert (p + x)[|p|] == x[0] && (p + y)[|p|] == y[0];
  }

  lemma DifferBehind(p: string, x: string, y: string)
    requires x != y
    ensures p + x != p + y
  {
    assert (p + x)[|p|..] == x && (p + y)[|p|..] == y;
  }

  lemma {:induction false} ReplaceMistaken(d: Doc, b: string, rep: Doc)
    requires Clean(d) && NulFree(b) && Mistaken(d, b) && Text(rep) != "" && Text(rep)[0] != NUL
    ensures ReplaceFirst(Text(d), Key(b), Text(rep)) != Text(ReplaceHole(d, b, rep))
  {
    var l, h, r := d.lit, d.hole, d.rest;
    var r' := ReplaceHole(r, b, rep);
    if r.lit == b {
      var rest := r.hole + [NUL] + Text(r.rest);
      var v := Text(rep);
      FalseMatch(l, h, b, rest, v);
      assert Text(d) == l + [NUL] + h + [NUL] + b + [NUL] + rest;
      FirstPart(l + [NUL] + h, v, rest);
      FirstPart(l + [NUL] + h, [NUL], Text(r'));
      DifferAt(l + [NUL] + h, v + rest, [NUL] + Text(r'));
    } else {
      SkipHole(l, h, r, b, rep);
      ReplaceMistaken(r, b, rep);
      DifferBehind(l + [NUL] + h + [NUL], ReplaceFirst(Text(r), Key(b), Text(rep)), Text(r'));
    }
  }

  lemma FirstPart(p: string, x: string, y: string)
    ensures p + x + y == p + (x + y)
  {
  }

  /** strings.Replace fills the first hole with that body exactly if no literal before it is mistaken for it. */
  lemma ReplaceIsHoleIff(d: Doc, b: string, rep: Doc)
    requires Clean(d) && NulFree(b) && Text(rep) != "" && Text(rep)[0] != NUL
    ensures ReplaceFirst(Text(d), Key(b), Text(rep)) == Text(ReplaceHole(d, b, rep)) <==> !Mistaken(d, b)
  {
    if Mistaken(d, b) {
      ReplaceMistaken(d, b, rep);
    } else {
      ReplaceUnmistaken(d, b, rep);
    }
  }

  lemma {:induction false} SafeIsUnmistaken(d: Doc, b: string)
    requires Safe(d) && IsBody(b)
    ensures !Mistaken(d, b)
  {
    if d.Node? {
      SafeIsUnmistaken(d.rest, b);
    }
  }

  /** On a safe text, strings.Replace fills the first hole with that body, or does nothing if there is none. */
  lemma ReplaceIsHole(d: Doc, b: string, rep: Doc)
    requires Clean(d) && NulFree(b) && IsBody(b) && Safe(d)
    ensures ReplaceFirst(Text(d), Key(b), Text(rep)) == Text(ReplaceHole(d, b, rep))
  {
    SafeIsUnmistaken(d, b);
    ReplaceUnmistaken(d, b, rep);
  }

  lemma Assoc(a: string, b: string, c: string, d: string)
    ensures a + b + c + d == a + (b + c + d)
  {
  }

  lemma ReplaceShift(p: string, q: string, pat: string, rep: string)
    requires Find(p + q, pat) == if Find(q, pat) < 0 then -1 else |p| + Find(q, pat)
    ensures ReplaceFirst(p + q, pat, rep) == p + ReplaceFirst(q, pat, rep)
  {
    var f := Find(q, pat);
    if f >= 0 {
      assert HasAt(q, f, pat);
      CutBehind(p, q, f, f + |pat|);
      ReplaceMoves(p + q, p, q, f, pat, rep);
    }
  }

  lemma CutBehind(p: string, q: string, f: nat, g: nat)
    requires f <= g <= |q|
    ensures (p + q)[..|p| + f] == p + q[..f] && (p + q)[|p| + g..] == q[g..]
  {
  }

  lemma ReplaceMoves(s: string, p: string, q: string, f: nat, pat: string, rep: string)
    requires |s| == |p| + |q| && f + |pat| <= |q| && Find(s, pat) == |p| + f && Find(q, pat) == f
    requires s[..|p| + f] == p + q[..f] && s[|p| + f + |pat|..] == q[f + |pat|..]
    ensures ReplaceFirst(s, pat, rep) == p + ReplaceFirst(q, pat, rep)
  {
    Replaced(s, pat, rep, |p| + f, p + q[..f], q[f + |pat|..]);
    Replaced(q, pat, rep, f, q[..f], q[f + |pat|..]);
    Prefixed(ReplaceFirst(s, pat, rep), ReplaceFirst(q, pat, rep), p, q[..f], rep, q[f + |pat|..]);
  }

  lemma Replaced(s: string, pat: string, rep: string, i: nat, a: string, c: string)
    requires Find(s, pat) == i && i + |pat| <= |s| && s[..i] == a && s[i + |pat|..] == c
    ensures ReplaceFirst(s, pat, rep) == a + rep + c
  {
  }

  lemma Prefixed(x: string, y: string, p: string, a: string, b: string, c: string)
    requires x == (p + a) + b + c && y == a + b + c
    ensures x == p + y
  {
    Assoc(p, a, b, c);
  }

  // ---- simultaneous substitution, and the restore loop ----

  function Subst(d: Doc, env: map<string, Doc>): Doc {
    match d
    case End(_) => d
    case Node(l, h, r) =>
      if h in env then Append(End(l), Append(env[h], Subst(r, env))) else Node(l, h, Subst(r, env))
  }

  lemma {:induction false} SubstAppend(d: Doc, e: Doc, env: map<string, Doc>)
    ensures Subst(Append(d, e), env) == Append(Subst(d, env), Subst(e, env))
  {
    match d
    case End(l) =>
      if e.Node? && e.hole in env {
        var x := Append(env[e.hole], Subst(e.rest, env));
        AppendAssoc(End(l), End(e.lit), x);
      }
    case Node(l, h, r) =>
      SubstAppend(r, e, env);
      if h in env {
        AppendAssoc(env[h], Subst(r, env), Subst(e, env));
        AppendAssoc(End(l), Append(env[h], Subst(r, env)), Subst(e, env));
      }
  }

  /** Substitution only looks at the holes it knows. */
  lemma {:induction false} SubstSame(d: Doc, env: map<string, Doc>, env': map<string, Doc>)
    requires forall h :: h in Holes(d) ==> (h in env <==> h in env') && (h in env ==> env[h] == env'[h])
    ensures Subst(d, env) == Subst(d, env')
  {
    if d.Node? {
      assert d.hole in Holes(d);
      assert forall h :: h in Holes(d.rest) ==> h in Holes(d);
      SubstSame(d.rest, env, env');
    }
  }

  lemma {:induction false} SubstNothing(d: Doc, env: map<string, Doc>)
    requires forall h :: h in Holes(d) ==> h !in env
    ensures Subst(d, env) == d
  {
    if d.Node? {
      assert d.hole in Holes(d);
      assert forall h :: h in Holes(d.rest) ==> h in Holes(d);
      SubstNothing(d.rest, env);
    }
  }

  function HoleCount(d: Doc, b: string): nat {
    multiset(Holes(d))[b]
  }

  /** Filling one hole and then the others is filling them all, if that hole occurs at most once. */
  lemma {:induction false} SubstReplace(d: Doc, b: string, rep: Doc, env: map<string, Doc>)
    requires HoleCount(d, b) <= 1 && b !in env
    requires forall h :: h in Holes(rep) ==> h !in env && h != b
    ensures Subst(ReplaceHole(d, b, rep), env) == Subst(d, env[b := rep])
  {
    match d
    case End(_) =>
    case Node(l, h, r) =>
      assert Holes(d) == [h] + Holes(r);
      if h == b {
        assert b !in Holes(r);
        SubstAppend(rep, r, env);
        SubstNothing(rep, env);
        SubstAppend(End(l), Append(rep, r), env);
        SubstSame(r, env, env[b := rep]);
      } else {
        SubstReplace(r, b, rep, env);
      }
  }

  /** The restore loop of one kind of placeholder, from number `i` on. */
  function Restore(s: string, t: Tag, vals: seq<string>, i: nat): string
    requires i <= |vals|
    decreases |vals| - i
  {
    if i == |vals| then s else Restore(ReplaceFirst(s, Placeholder(t, i), vals[i]), t, vals, i + 1)
  }

  function Texts(docs: seq<Doc>): seq<string> {
    seq(|docs|, k requires 0 <= k < |docs| => Text(docs[k]))
  }

  /** The values from number `i` on, by body. */
  function Env(t: Tag, docs: seq<Doc>, i: nat): map<string, Doc>
    requires i <= |docs|
    decreases |docs| - i
  {
    if i == |docs| then map[] else Env(t, docs, i + 1)[Body(t, i) := docs[i]]
  }

  lemma {:induction false} EnvDomain(t: Tag, docs: seq<Doc>, i: nat)
    requires i <= |docs|
    ensures forall k :: i <= k < |docs| ==> Body(t, k) in Env(t, docs, i) && Env(t, docs, i)[Body(t, k)] == docs[k]
    ensures forall h <- Env(t, docs, i) :: exists k :: i <= k < |docs| && h == Body(t, k)
    decreases |docs| - i
  {
    if i < |docs| {
      EnvDomain(t, docs, i + 1);
      forall k | i < k < |docs| ensures Body(t, k) != Body(t, i) {
        BodyInjective(t, k, t, i);
      }
    }
  }
}
