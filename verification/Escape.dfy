/** escapeHTMLEntities: three replacements in a row are one pass over the characters. */
module Escape {
  import opened Placeholders
  import opened Extraction

  /** strings.ReplaceAll for a pattern of one character */
  function ReplaceAllChar(s: string, c: char, rep: string): string {
    if s == "" then "" else (if s[0] == c then rep else [s[0]]) + ReplaceAllChar(s[1..], c, rep)
  }

  /** The three replacements in the order the program makes them. */
  function EscapeEntities(s: string): string {
    ReplaceAllChar(ReplaceAllChar(ReplaceAllChar(s, '&', "&amp;"), '<', "&lt;"), '>', "&gt;")
  }

  function Entity(c: char): string {
    match c
    case '&' => "&amp;"
    case '<' => "&lt;"
    case '>' => "&gt;"
    case _ => [c]
  }

  function EscapeChars(s: string): string {
    if s == "" then "" else Entity(s[0]) + EscapeChars(s[1..])
  }

  /** The inverse, reading from the left. */
  function Unescape(s: string): string
    decreases |s|
  {
    if s == "" then ""
    else if |s| >= 5 && s[..5] == "&amp;" then "&" + Unescape(s[5..])
    else if |s| >= 4 && s[..4] == "&lt;" then "<" + Unescape(s[4..])
    else if |s| >= 4 && s[..4] == "&gt;" then ">" + Unescape(s[4..])
    else [s[0]] + Unescape(s[1..])
  }

  lemma {:induction false} ReplaceAllConcat(s: string, t: string, c: char, rep: string)
    ensures ReplaceAllChar(s + t, c, rep) == ReplaceAllChar(s, c, rep) + ReplaceAllChar(t, c, rep)
  {
    if s == "" {
      assert s + t == t;
    } else {
      ReplaceAllConcat(s[1..], t, c, rep);
      ConcatTail(s, t);
      WeaveTwo(if s[0] == c then rep else [s[0]], ReplaceAllChar(s[1..], c, rep), ReplaceAllChar(t, c, rep));
    }
  }

  lemma ConcatTail(s: string, t: string)
    requires s != ""
    ensures (s + t)[0] == s[0] && (s + t)[1..] == s[1..] + t
  {
  }

  lemma {:induction false} ReplaceAllNothing(s: string, c: char, rep: string)
    requires c !in s
    ensures ReplaceAllChar(s, c, rep) == s
  {
    if s != "" {
      ReplaceAllNothing(s[1..], c, rep);
    }
  }

  lemma ReplaceAllOne(c: char, d: char, rep: string)
    ensures ReplaceAllChar([c], d, rep) == if c == d then rep else [c]
  {
    assert [c][1..] == "";
    assert rep + "" == rep && [c] + "" == [c];
  }

  lemma EscapeOne(c: char)
    ensures EscapeEntities([c]) == Entity(c)
  {
    ReplaceAllOne(c, '&', "&amp;");
    if c == '&' {
      ReplaceAllNothing("&amp;", '<', "&lt;");
      ReplaceAllNothing("&amp;", '>', "&gt;");
    } else {
      ReplaceAllOne(c, '<', "&lt;");
      ReplaceAllNothing("&lt;", '>', "&gt;");
      ReplaceAllOne(c, '>', "&gt;");
    }
  }

  lemma EscapeConcat(s: string, t: string)
    ensures EscapeEntities(s + t) == EscapeEntities(s) + EscapeEntities(t)
  {
    var s1, t1 := ReplaceAllChar(s, '&', "&amp;"), ReplaceAllChar(t, '&', "&amp;");
    ReplaceAllConcat(s, t, '&', "&amp;");
    ReplaceAllConcat(s1, t1, '<', "&lt;");
    ReplaceAllConcat(ReplaceAllChar(s1, '<', "&lt;"), ReplaceAllChar(t1, '<', "&lt;"), '>', "&gt;");
  }

  lemma {:induction false} EscapeIsOnePass(s: string)
    ensures EscapeEntities(s) == EscapeChars(s)
  {
    if s != "" {
      EscapeIsOnePass(s[1..]);
      EscapeConcat([s[0]], s[1..]);
      EscapeOne(s[0]);
      assert [s[0]] + s[1..] == s;
    }
  }

  lemma UnescapeOne(c: char, t: string)
    ensures Unescape(Entity(c) + t) == [c] + Unescape(t)
  {
    var s := Entity(c) + t;
    assert s[|Entity(c)|..] == t && s[..|Entity(c)|] == Entity(c);
    if c !in {'&', '<', '>'} {
      assert s[0] != '&';
      assert |s| >= 5 ==> s[..5][0] != "&amp;"[0];
      assert |s| >= 4 ==> s[..4][0] != "&lt;"[0];
    } else if c == '<' {
      assert |s| >= 5 ==> s[..5][1] != "&amp;"[1];
    } else if c == '>' {
      assert |s| >= 5 ==> s[..5][1] != "&amp;"[1];
      assert s[..4][1] != "&lt;"[1];
    }
  }

  /** The escaping loses nothing, and leaves no angle bracket that Slack could take for a token. */
  lemma {:induction false} EscapeInvertible(s: string)
    ensures Unescape(EscapeEntities(s)) == s
    ensures '<' !in EscapeEntities(s) && '>' !in EscapeEntities(s)
  {
    EscapeIsOnePass(s);
    if s != "" {
      EscapeIsOnePass(s[1..]);
      EscapeInvertible(s[1..]);
      UnescapeOne(s[0], EscapeChars(s[1..]));
      EntityChars(s[0]);
    }
  }

  lemma EntityChars(c: char)
    ensures '<' !in Entity(c) && '>' !in Entity(c)
    ensures NUL in Entity(c) <==> c == NUL
  {
  }

  lemma {:induction false} EscapeNulFree(s: string)
    ensures NulFree(EscapeChars(s)) <==> NulFree(s)
  {
    if s != "" {
      EscapeNulFree(s[1..]);
      EntityChars(s[0]);
    }
  }

  // ---- placeholders pass through ----

  lemma {:induction false} EscapeNothing(s: string)
    requires '&' !in s && '<' !in s && '>' !in s
    ensures EscapeChars(s) == s
  {
    if s != "" {
      EscapeNothing(s[1..]);
    }
  }

  lemma EscapeCharsConcat(s: string, t: string)
    ensures EscapeChars(s + t) == EscapeChars(s) + EscapeChars(t)
  {
    EscapeIsOnePass(s);
    EscapeIsOnePass(t);
    EscapeIsOnePass(s + t);
    EscapeConcat(s, t);
  }

  lemma EscapePlaceholder(t: Tag, n: nat)
    ensures EscapeChars(Placeholder(t, n)) == Placeholder(t, n)
  {
    DecShape(n);
    var p := Placeholder(t, n);
    forall i | 0 <= i < |p| ensures p[i] !in {'&', '<', '>'} {
      if 3 <= i < |p| - 1 {
        assert p[i] == Dec(n)[i - 3];
      }
    }
    EscapeNothing(p);
  }

  /** The text parts escaped, every second part as it is. */
  function EscapeEvens(ps: seq<string>): (r: seq<string>)
    ensures |r| == |ps|
  {
    if ps == [] then []
    else if |ps| == 1 then [EscapeChars(ps[0])]
    else [EscapeChars(ps[0]), ps[1]] + EscapeEvens(ps[2..])
  }

  lemma {:induction false} EscapeWeave(ps: seq<string>, t: Tag, n: nat)
    ensures EscapeChars(Weave(ps, t, n)) == Weave(EscapeEvens(ps), t, n)
  {
    if |ps| >= 2 {
      EscapeWeave(ps[2..], t, n + 1);
      EscapeCharsConcat(ps[0] + Placeholder(t, n), Weave(ps[2..], t, n + 1));
      EscapeCharsConcat(ps[0], Placeholder(t, n));
      EscapePlaceholder(t, n);
      assert EscapeEvens(ps)[2..] == EscapeEvens(ps[2..]);
    }
  }
}
