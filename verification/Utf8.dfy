/**
 UTF-8-safe truncation: truncateUTF8 of internal/acp/client.go and truncateUTF8Cursor of
 internal/provider/cursor_stream.go. Validity follows section 4 of RFC 3629, as Go's utf8.ValidString does.
 */
module Utf8 {
  newtype byte = x: int | 0 <= x < 256

  predicate In(b: byte, lo: byte, hi: byte) {
    lo <= b <= hi
  }

  predicate Tails(s: seq<byte>, n: nat) {
    |s| > n && forall i :: 2 <= i <= n ==> In(s[i], 0x80, 0xBF)
  }

  /** The length of the well-formed character at the front, or 0. */
  function CharLen(s: seq<byte>): (n: nat)
    ensures n <= 4 && n <= |s|
  {
    if s == [] then 0
    else if s[0] <= 0x7F then 1
    else if |s| >= 2 && In(s[0], 0xC2, 0xDF) && In(s[1], 0x80, 0xBF) then 2
    else if Tails(s, 2) && SecondOfThree(s[0], s[1]) then 3
    else if Tails(s, 3) && SecondOfFour(s[0], s[1]) then 4
    else 0
  }

  predicate SecondOfThree(a: byte, b: byte) {
    || (a == 0xE0 && In(b, 0xA0, 0xBF))
    || (In(a, 0xE1, 0xEC) && In(b, 0x80, 0xBF))
    || (a == 0xED && In(b, 0x80, 0x9F))
    || (In(a, 0xEE, 0xEF) && In(b, 0x80, 0xBF))
  }

  predicate SecondOfFour(a: byte, b: byte) {
    || (a == 0xF0 && In(b, 0x90, 0xBF))
    || (In(a, 0xF1, 0xF3) && In(b, 0x80, 0xBF))
    || (a == 0xF4 && In(b, 0x80, 0x8F))
  }

  /** A sequence of well-formed characters. */
  predicate Valid(s: seq<byte>) {
    s == [] || (CharLen(s) > 0 && Valid(s[CharLen(s)..]))
  }

  // ---- validity in terms of characters ----

  /** Unicode scalar values: all code points but the surrogates. */
  predicate Scalar(c: int) {
    0 <= c < 0xD800 || 0xE000 <= c <= 0x10FFFF
  }

  /** The encoding of one character (section 3 of RFC 3629). */
  function Encode(c: int): (s: seq<byte>)
    requires Scalar(c)
    ensures 1 <= |s| <= 4
  {
    if c < 0x80 then [c as byte]
    else if c < 0x800 then [(0xC0 + c / 64) as byte, Tail(c)]
    else if c < 0x10000 then [(0xE0 + c / 4096) as byte, Tail(c / 64), Tail(c)]
    else [(0xF0 + c / 262144) as byte, Tail(c / 4096), Tail(c / 64), Tail(c)]
  }

  function Tail(c: int): byte {
    (0x80 + c % 64) as byte
  }

  /** What a well-formed character at the front stands for. */
  function Decode(s: seq<byte>): int
    requires CharLen(s) > 0
  {
    match CharLen(s)
    case 1 => s[0] as int
    case 2 => (s[0] as int - 0xC0) * 64 + Low(s[1])
    case 3 => (s[0] as int - 0xE0) * 4096 + Low(s[1]) * 64 + Low(s[2])
    case _ => (s[0] as int - 0xF0) * 262144 + Low(s[1]) * 4096 + Low(s[2]) * 64 + Low(s[3])
  }

  function Low(b: byte): int {
    b as int - 0x80
  }

  lemma EncodedLen(c: int, rest: seq<byte>)
    requires Scalar(c)
    ensures CharLen(Encode(c) + rest) == |Encode(c)|
  {
    var s := Encode(c) + rest;
    assert s[..|Encode(c)|] == Encode(c);
    if c < 0x80 {
      assert s[0] == c as byte;
    } else if c < 0x800 {
      assert s[0] == (0xC0 + c / 64) as byte && s[1] == Tail(c);
    } else if c < 0x10000 {
      EncodedThree(c, s);
    } else {
      EncodedFour(c, s);
    }
  }

  lemma EncodedThree(c: int, s: seq<byte>)
    requires Scalar(c) && 0x800 <= c < 0x10000 && Encode(c) <= s
    ensures CharLen(s) == 3
  {
    assert s[0] == (0xE0 + c / 4096) as byte && s[1] == Tail(c / 64) && s[2] == Tail(c);
  }

  lemma EncodedFour(c: int, s: seq<byte>)
    requires Scalar(c) && 0x10000 <= c && Encode(c) <= s
    ensures CharLen(s) == 4
  {
    assert s[0] == (0xF0 + c / 262144) as byte && s[1] == Tail(c / 4096) && s[2] == Tail(c / 64) && s[3] == Tail(c);
  }

  /** A well-formed character at the front is the encoding of one scalar value. */
  lemma CharIsEncoded(s: seq<byte>)
    requires CharLen(s) > 0
    ensures Scalar(Decode(s)) && s[..CharLen(s)] == Encode(Decode(s))
  {
    var n := CharLen(s);
    if n == 2 {
      Parts(s[0] as int - 0xC0, Low(s[1]));
    } else if n == 3 {
      ThreeDecoded(s);
    } else if n == 4 {
      FourDecoded(s);
    }
  }

  lemma ThreeDecoded(s: seq<byte>)
    requires CharLen(s) == 3
    ensures Scalar(Decode(s)) && s[..3] == Encode(Decode(s))
  {
    Parts((s[0] as int - 0xE0) * 64 + Low(s[1]), Low(s[2]));
    Parts(s[0] as int - 0xE0, Low(s[1]));
  }

  lemma FourDecoded(s: seq<byte>)
    requires CharLen(s) == 4
    ensures Scalar(Decode(s)) && s[..4] == Encode(Decode(s))
  {
    Parts(((s[0] as int - 0xF0) * 64 + Low(s[1])) * 64 + Low(s[2]), Low(s[3]));
    Parts((s[0] as int - 0xF0) * 64 + Low(s[1]), Low(s[2]));
    Parts(s[0] as int - 0xF0, Low(s[1]));
  }

  lemma Parts(a: int, b: int)
    requires 0 <= a && 0 <= b < 64
    ensures (a * 64 + b) / 64 == a && (a * 64 + b) % 64 == b
  {
  }

  function EncodeAll(cs: seq<int>): seq<byte>
    requires forall i :: 0 <= i < |cs| ==> Scalar(cs[i])
  {
    if cs == [] then [] else Encode(cs[0]) + EncodeAll(cs[1..])
  }

  lemma {:induction false} EncodedIsValid(cs: seq<int>)
    requires forall i :: 0 <= i < |cs| ==> Scalar(cs[i])
    ensures Valid(EncodeAll(cs))
  {
    if cs != [] {
      EncodedLen(cs[0], EncodeAll(cs[1..]));
      EncodedIsValid(cs[1..]);
      assert EncodeAll(cs)[|Encode(cs[0])|..] == EncodeAll(cs[1..]);
    }
  }

  lemma {:induction false} ValidIsEncoded(s: seq<byte>) returns (cs: seq<int>)
    requires Valid(s)
    ensures (forall i :: 0 <= i < |cs| ==> Scalar(cs[i])) && EncodeAll(cs) == s
  {
    if s == [] {
      cs := [];
    } else {
      var rest := ValidIsEncoded(s[CharLen(s)..]);
      CharIsEncoded(s);
      cs := [Decode(s)] + rest;
      assert cs[1..] == rest && s == s[..CharLen(s)] + s[CharLen(s)..];
    }
  }

  /** A text is valid exactly if it is the encoding of some characters. */
  lemma ValidIff(s: seq<byte>)
    ensures Valid(s) <==> exists cs: seq<int> :: (forall i :: 0 <= i < |cs| ==> Scalar(cs[i])) && EncodeAll(cs) == s
  {
    if Valid(s) {
      var cs := ValidIsEncoded(s);
    }
    if cs: seq<int> :| (forall i :: 0 <= i < |cs| ==> Scalar(cs[i])) && EncodeAll(cs) == s {
      EncodedIsValid(cs);
    }
  }

  // ---- truncation ----

  /** The longest valid prefix of at most `max` bytes. */
  ghost predicate IsLongest(r: seq<byte>, s: seq<byte>, max: int) {
    r <= s && |r| <= max && Valid(r) && forall k :: |r| < k <= max && k <= |s| ==> !Valid(s[..k])
  }

  /** The trimming loop that both copies contain. */
  method Trim(s: seq<byte>, max: nat) returns (r: seq<byte>)
    requires max < |s|
    ensures IsLongest(r, s, max)
  {
    r := s[..max];
    while |r| > 0 && !Valid(r)
      invariant r <= s && |r| <= max
      invariant forall k :: |r| < k <= max ==> !Valid(s[..k])
    {
      assert s[..|r|] == r;
      r := r[..|r| - 1];
    }
  }

  /** "…[truncated]" */
  const SUFFIX: seq<byte> :=
    [0xE2, 0x80, 0xA6, 0x5B, 0x74, 0x72, 0x75, 0x6E, 0x63, 0x61, 0x74, 0x65, 0x64, 0x5D]

  method TruncateUTF8(s: seq<byte>, maxBytes: int) returns (r: seq<byte>)
    ensures maxBytes <= 0 ==> r == []
    ensures 0 < maxBytes && |s| <= maxBytes ==> r == s
    ensures 0 < maxBytes < |s| ==> exists t :: IsLongest(t, s, maxBytes) && r == t + SUFFIX
  {
    if maxBytes <= 0 {
      return [];
    }
    if |s| <= maxBytes {
      return s;
    }
    var t := Trim(s, maxBytes);
    r := t + SUFFIX;
  }

  method TruncateUTF8Cursor(s: seq<byte>, maxBytes: int) returns (r: seq<byte>)
    ensures maxBytes <= 0 ==> r == []
    ensures 0 < maxBytes && |s| <= maxBytes ==> r == s
    ensures 0 < maxBytes < |s| ==> IsLongest(r, s, maxBytes)
  {
    if maxBytes <= 0 {
      return [];
    }
    if |s| <= maxBytes {
      return s;
    }
    r := Trim(s, maxBytes);
  }

  /** There is only one longest valid prefix, so both copies keep the same bytes. */
  lemma OneLongest(r: seq<byte>, t: seq<byte>, s: seq<byte>, max: int)
    requires IsLongest(r, s, max) && IsLongest(t, s, max)
    ensures r == t
  {
    assert r == s[..|r|] && t == s[..|t|];
  }

  // ---- how much is lost ----

  /** What makes a character well-formed is in its own bytes. */
  lemma SameChar(s: seq<byte>, t: seq<byte>)
    requires s <= t && CharLen(s) > 0
    ensures CharLen(t) == CharLen(s)
  {
  }

  lemma OwnBytes(s: seq<byte>, n: nat)
    requires CharLen(s) > 0 && CharLen(s) <= n <= |s|
    ensures CharLen(s[..n]) == CharLen(s)
  {
  }

  lemma {:induction false} ValidConcat(s: seq<byte>, t: seq<byte>)
    requires Valid(s) && Valid(t)
    ensures Valid(s + t)
    decreases |s|
  {
    if s == [] {
      assert s + t == t;
    } else {
      var n := CharLen(s);
      SameChar(s, s + t);
      ValidConcat(s[n..], t);
      CutFront(s, t, n);
      ValidStep(s + t, n);
    }
  }

  lemma CutFront(s: seq<byte>, t: seq<byte>, n: nat)
    requires n <= |s|
    ensures (s + t)[n..] == s[n..] + t
  {
  }

  lemma ValidStep(s: seq<byte>, n: nat)
    requires n == CharLen(s) > 0 && Valid(s[n..])
    ensures Valid(s)
  {
  }

  /** A valid prefix of a valid text ends between two characters. */
  lemma {:induction false} RestIsValid(s: seq<byte>, b: nat)
    requires b <= |s| && Valid(s) && Valid(s[..b])
    ensures Valid(s[b..])
    decreases b
  {
    if b == 0 {
      assert s[0..] == s;
    } else {
      var n := CharLen(s[..b]);
      ValidTail(s[..b]);
      ValidTail(s);
      SameChar(s[..b], s);
      CutTwice(s, n, b);
      RestIsValid(s[n..], b - n);
    }
  }

  lemma ValidTail(s: seq<byte>)
    requires Valid(s) && s != []
    ensures CharLen(s) > 0 && Valid(s[CharLen(s)..])
  {
  }

  lemma CutTwice(s: seq<byte>, n: nat, b: nat)
    requires n <= b <= |s|
    ensures s[..b][n..] == s[n..][..b - n] && s[n..][b - n..] == s[b..]
  {
  }

  /** In a valid text, some character begins at most three bytes before any position. */
  lemma {:induction false} BoundaryNear(s: seq<byte>, n: nat) returns (b: nat)
    requires n <= |s| && Valid(s)
    ensures b <= n <= b + 3 && Valid(s[..b])
    decreases n
  {
    var c := CharLen(s);
    if n == 0 || n < c {
      b := 0;
    } else {
      var b' := BoundaryNear(s[c..], n - c);
      b := c + b';
      OwnBytes(s, b);
      assert s[..b][c..] == s[c..][..b'];
    }
  }

  /** Cutting a valid text loses at most three bytes of the budget, and never part of a character. */
  lemma LosesAtMostThree(s: seq<byte>, r: seq<byte>, max: nat)
    requires Valid(s) && max <= |s| && IsLongest(r, s, max)
    ensures max - 3 <= |r| <= max && Valid(s[|r|..])
  {
    var b := BoundaryNear(s, max);
    assert r == s[..|r|];
    RestIsValid(s, |r|);
  }

  /** Whatever was cut, the text that is logged is valid. */
  lemma CutIsValid(r: seq<byte>, s: seq<byte>, max: int)
    requires IsLongest(r, s, max)
    ensures Valid(r + SUFFIX)
  {
    SuffixValid();
    ValidConcat(r, SUFFIX);
  }

  lemma {:induction false} AsciiValid(s: seq<byte>)
    requires forall i :: 0 <= i < |s| ==> s[i] <= 0x7F
    ensures Valid(s)
  {
    if s != [] {
      AsciiValid(s[1..]);
    }
  }

  lemma SuffixValid()
    ensures Valid(SUFFIX)
  {
    assert CharLen(SUFFIX) == 3;
    AsciiValid(SUFFIX[3..]);
  }

  /** Three bytes can be lost: a four-byte character cut before its last byte. */
  lemma ThreeCanBeLost(r: seq<byte>)
    requires IsLongest(r, [0xF0, 0x9F, 0x98, 0x80], 3)
    ensures r == []
  {
    var s: seq<byte> := [0xF0, 0x9F, 0x98, 0x80];
    assert r == s[..|r|];
    if |r| > 0 {
      assert CharLen(r) == 0;
    }
  }
}
