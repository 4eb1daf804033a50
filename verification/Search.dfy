/** First-match search and replacement, and splitting (Go's strings.Index, strings.Replace with n = 1, strings.Split). */
module Search {
  predicate HasAt(s: string, i: int, pat: string) {
    0 <= i && i + |pat| <= |s| && s[i..i + |pat|] == pat
  }

  /** strings.Index */
  function Find(s: string, pat: string): (r: int)
    ensures -1 <= r
    ensures r >= 0 ==> HasAt(s, r, pat)
    ensures r == -1 ==> forall i :: !HasAt(s, i, pat)
    ensures forall i :: 0 <= i < r ==> !HasAt(s, i, pat)
  {
    if HasAt(s, 0, pat) then 0
    else if s == "" then -1
    else
      var r := Find(s[1..], pat);
      assert forall i :: HasAt(s, i, pat) && i > 0 ==> HasAt(s[1..], i - 1, pat);
      if r < 0 then -1 else r + 1
  }

  lemma FindIs(s: string, pat: string, i: int)
    requires HasAt(s, i, pat) && forall k :: 0 <= k < i ==> !HasAt(s, k, pat)
    ensures Find(s, pat) == i
  {
  }

  /** Searching on past a part in which no match begins. */
  lemma FindAfter(p: string, q: string, pat: string)
    requires forall i :: 0 <= i < |p| ==> !HasAt(p + q, i, pat)
    ensures Find(p + q, pat) == if Find(q, pat) < 0 then -1 else |p| + Find(q, pat)
  {
    var s, r := p + q, Find(q, pat);
    forall i | i >= |p| ensures HasAt(s, i, pat) <==> HasAt(q, i - |p|, pat) {
      if i + |pat| <= |s| {
        assert s[i..i + |pat|] == q[i - |p|..i - |p| + |pat|];
      }
    }
    if r >= 0 {
      FindIs(s, pat, |p| + r);
    } else {
      assert forall i :: !HasAt(s, i, pat);
    }
  }

  /** strings.Replace(s, pat, rep, 1) */
  function ReplaceFirst(s: string, pat: string, rep: string): string {
    var i := Find(s, pat);
    if i < 0 then s else s[..i] + rep + s[i + |pat|..]
  }

  /** strings.Split for a non-empty separator */
  function Split(s: string, sep: string): (parts: seq<string>)
    requires sep != ""
    ensures parts != []
    decreases |s|
  {
    var i := Find(s, sep);
    if i < 0 then [s] else [s[..i]] + Split(s[i + |sep|..], sep)
  }

  /** strings.Join */
  function Join(parts: seq<string>, sep: string): string
    requires parts != []
  {
    if |parts| == 1 then parts[0] else parts[0] + sep + Join(parts[1..], sep)
  }

  lemma {:induction false} JoinSplit(s: string, sep: string)
    requires sep != ""
    ensures Join(Split(s, sep), sep) == s
    decreases |s|
  {
    var i := Find(s, sep);
    if i >= 0 {
      JoinSplit(s[i + |sep|..], sep);
      JoinMore(s[..i], Split(s[i + |sep|..], sep), sep);
      CutAt(s, i, sep);
    }
  }

  lemma SliceOfTake(s: string, e: nat, a: nat, b: nat)
    requires a <= b <= e <= |s|
    ensures s[..e][a..b] == s[a..b]
  {
  }

  lemma JoinMore(a: string, rest: seq<string>, sep: string)
    requires rest != []
    ensures Join([a] + rest, sep) == a + sep + Join(rest, sep)
  {
    assert ([a] + rest)[1..] == rest;
  }

  /** A text around one of its matches. */
  lemma CutAt(s: string, i: nat, pat: string)
    requires HasAt(s, i, pat)
    ensures s == s[..i] + pat + s[i + |pat|..]
  {
  }
}
