/** The parts of Go's strings package that the modelled code leans on. Text is a sequence of characters. */
module Text {
  /** unicode.IsSpace */
  predicate IsSpace(c: char) {
    c in {'\t', '\n', '\U{0B}', '\U{0C}', '\r', ' ', '\U{85}', '\U{A0}', '\U{1680}', '\U{2028}', '\U{2029}', '\U{202F}', '\U{205F}', '\U{3000}'}
    || '\U{2000}' <= c <= '\U{200A}'
  }

  function TrimLeft(s: string): string {
    if s != "" && IsSpace(s[0]) then TrimLeft(s[1..]) else s
  }

  function TrimRight(s: string): string {
    if s != "" && IsSpace(s[|s| - 1]) then TrimRight(s[..|s| - 1]) else s
  }

  /** strings.TrimSpace */
  function TrimSpace(s: string): string {
    TrimRight(TrimLeft(s))
  }

  predicate Blank(s: string) {
    forall i :: 0 <= i < |s| ==> IsSpace(s[i])
  }

  /** Neither end is white space. */
  predicate Trimmed(s: string) {
    s == "" || (!IsSpace(s[0]) && !IsSpace(s[|s| - 1]))
  }

  lemma {:induction false} TrimLeftIs(s: string)
    ensures exists a :: s == a + TrimLeft(s) && Blank(a)
    ensures TrimLeft(s) == "" || !IsSpace(TrimLeft(s)[0])
  {
    if s != "" && IsSpace(s[0]) {
      TrimLeftIs(s[1..]);
      var a :| s[1..] == a + TrimLeft(s[1..]) && Blank(a);
      assert s == ([s[0]] + a) + TrimLeft(s) && Blank([s[0]] + a);
    } else {
      assert s == "" + TrimLeft(s) && Blank("");
    }
  }

  lemma {:induction false} TrimRightIs(s: string)
    ensures exists b :: s == TrimRight(s) + b && Blank(b)
    ensures TrimRight(s) == "" || (!IsSpace(TrimRight(s)[|TrimRight(s)| - 1]) && TrimRight(s)[0] == s[0])
  {
    if s != "" && IsSpace(s[|s| - 1]) {
      var n := |s| - 1;
      TrimRightIs(s[..n]);
      var b :| s[..n] == TrimRight(s[..n]) + b && Blank(b);
      assert s == TrimRight(s) + (b + [s[n]]) && Blank(b + [s[n]]);
    } else {
      assert s == TrimRight(s) + "" && Blank("");
    }
  }

  /** Trimming takes white space off both ends, and all of it. */
  lemma TrimSpaceIs(s: string)
    ensures Trimmed(TrimSpace(s))
    ensures exists a, b :: s == a + TrimSpace(s) + b && Blank(a) && Blank(b)
  {
    TrimLeftIs(s);
    TrimRightIs(TrimLeft(s));
    var a :| s == a + TrimLeft(s) && Blank(a);
    var b :| TrimLeft(s) == TrimSpace(s) + b && Blank(b);
    assert s == a + TrimSpace(s) + b;
  }

  /** Only one trimmed text is left when white space is taken off both ends, unless nothing is left. */
  lemma TrimSpaceUnique(s: string, a: string, t: string, b: string)
    requires s == a + t + b && Blank(a) && Blank(b) && Trimmed(t)
    ensures TrimSpace(s) == t
  {
    var r := TrimSpace(s);
    TrimSpaceIs(s);
    var c, d :| s == c + r + d && Blank(c) && Blank(d);
    SameCore(a, t, b, c, r, d);
  }

  lemma SameCore(a: string, t: string, b: string, c: string, r: string, d: string)
    requires a + t + b == c + r + d && Blank(a) && Blank(b) && Blank(c) && Blank(d) && Trimmed(t) && Trimmed(r)
    ensures r == t
  {
    var s := a + t + b;
    var s' := c + r + d;
    assert s == s';
    if t != "" {
      assert s[|a|] == t[0] && s[|a| + |t| - 1] == t[|t| - 1];
      assert forall i :: 0 <= i < |c| ==> s'[i] == c[i];
      assert forall i :: |c| + |r| <= i < |s'| ==> s'[i] == d[i - |c| - |r|];
    }
    if r != "" {
      assert s'[|c|] == r[0] && s'[|c| + |r| - 1] == r[|r| - 1];
      assert forall i :: 0 <= i < |a| ==> s[i] == a[i];
      assert forall i :: |a| + |t| <= i < |s| ==> s[i] == b[i - |a| - |t|];
    }
    if t != "" && r != "" {
      assert |a| == |c| && |t| == |r|;
      assert t == s[|a|..|a| + |t|] && r == s'[|c|..|c| + |r|];
    }
  }
}
