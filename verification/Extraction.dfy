/**
 Pulling code out of a text and putting it back (extractCodeBlocks, extractInlineCodes and the
 restore loops of internal/slackmrkdwn/format.go), on plain strings.
 */
module Extraction {
  import opened Search
  import opened Placeholders

  const FENCE := "```"
  const TICK := "`"

  // ---- alternating parts: text, code, text, code, ... ----

  function Odds<T>(ps: seq<T>): seq<T> {
    if |ps| < 2 then [] else [ps[1]] + Odds(ps[2..])
  }

  /** The parts with a placeholder, numbered from `n`, for every second one. */
  function Weave(ps: seq<string>, t: Tag, n: nat): string {
    if ps == [] then ""
    else if |ps| == 1 then ps[0]
    else ps[0] + Placeholder(t, n) + Weave(ps[2..], t, n + 1)
  }

  lemma {:induction false} OddsAt<T>(ps: seq<T>)
    ensures |Odds(ps)| == |ps| / 2
    ensures forall k :: 0 <= k < |ps| / 2 ==> Odds(ps)[k] == ps[2 * k + 1]
  {
    if |ps| >= 2 {
      OddsAt(ps[2..]);
      assert Odds(ps) == [ps[1]] + Odds(ps[2..]);
      forall k | 0 <= k < |ps| / 2 ensures Odds(ps)[k] == ps[2 * k + 1] {
        if k > 0 {
          assert Odds(ps)[k] == Odds(ps[2..])[k - 1] == ps[2..][2 * (k - 1) + 1];
        }
      }
    }
  }

  lemma {:induction false} OddsPush<T>(ps: seq<T>, p: T)
    ensures Odds(ps + [p]) == if |ps| % 2 == 1 then Odds(ps) + [p] else Odds(ps)
  {
    if |ps| >= 2 {
      OddsPush(ps[2..], p);
      assert (ps + [p])[2..] == ps[2..] + [p];
    }
  }

  lemma Regroup(a: string, b: string, c: string, d: string)
    ensures a + b + (c + d) == a + b + c + d
  {
  }

  lemma {:induction false} WeavePush(ps: seq<string>, p: string, t: Tag, n: nat)
    ensures Weave(ps + [p], t, n) == Weave(ps, t, n) + Piece(p, t, n, |ps|)
  {
    if |ps| < 2 {
      WeaveFewPush(ps, p, t, n);
    } else {
      WeavePush(ps[2..], p, t, n + 1);
      DropTwo(ps, p);
      assert Piece(p, t, n, |ps|) == Piece(p, t, n + 1, |ps| - 2);
      Regroup(ps[0], Placeholder(t, n), Weave(ps[2..], t, n + 1), Piece(p, t, n, |ps|));
    }
  }

  lemma WeaveFewPush(ps: seq<string>, p: string, t: Tag, n: nat)
    requires |ps| < 2
    ensures Weave(ps + [p], t, n) == Weave(ps, t, n) + Piece(p, t, n, |ps|)
  {
    if ps == [] {
      assert "" + p == p;
    } else {
      assert (ps + [p])[2..] == [];
      PlusNothing(ps[0] + Placeholder(t, n));
    }
  }

  lemma DropTwo<T>(ps: seq<T>, p: T)
    requires |ps| >= 2
    ensures (ps + [p])[2..] == ps[2..] + [p] && (ps + [p])[0] == ps[0]
  {
  }

  /** What part number `i` contributes when numbering starts at `n`. */
  function Piece(p: string, t: Tag, n: nat, i: nat): string {
    if i % 2 == 1 then Placeholder(t, n + i / 2) else p
  }

  // ---- code fences ----

  /** Text and code in turn. One fence alone is text; of an odd number of fences the last one opens a block and is also kept as text. */
  function FenceParts(text: string): (ps: seq<string>)
    ensures |ps| % 2 == 1
  {
    Regular(Split(text, FENCE), text, FENCE)
  }

  function Regular(parts: seq<string>, text: string, q: string): (ps: seq<string>)
    requires parts != []
    ensures |ps| % 2 == 1
  {
    if |parts| < 3 then [text]
    else if |parts| % 2 == 1 then parts
    else LastRepeated(parts, q)
  }

  function LastRepeated(parts: seq<string>, q: string): seq<string>
    requires parts != []
  {
    parts + [q + parts[|parts| - 1]]
  }

  lemma BlockStep(parts: seq<string>, i: nat)
    requires i < |parts|
    ensures var bs, w := Odds(parts[..i]), Weave(parts[..i], CB, 0);
            && Odds(parts[..i + 1]) == (if i % 2 == 1 then bs + [parts[i]] else bs)
            && Weave(parts[..i + 1], CB, 0) == w + (if i % 2 == 1 then Placeholder(CB, |bs|) else parts[i])
  {
    assert parts[..i + 1] == parts[..i] + [parts[i]];
    OddsPush(parts[..i], parts[i]);
    OddsAt(parts[..i]);
    WeavePush(parts[..i], parts[i], CB, 0);
  }

  lemma LastFence(parts: seq<string>)
    requires |parts| > 0 && |parts| % 2 == 0
    ensures var last := FENCE + parts[|parts| - 1];
            && Odds(parts + [last]) == Odds(parts)
            && Weave(parts + [last], CB, 0) == Weave(parts, CB, 0) + FENCE + parts[|parts| - 1]
  {
    var last := FENCE + parts[|parts| - 1];
    OddsPush(parts, last);
    WeavePush(parts, last, CB, 0);
    WeaveTwo(Weave(parts, CB, 0), FENCE, parts[|parts| - 1]);
  }

  lemma WeaveTwo(a: string, b: string, c: string)
    ensures a + (b + c) == a + b + c
  {
  }

  method ExtractCodeBlocks(text: string) returns (blocks: seq<string>, result: string)
    ensures blocks == Odds(FenceParts(text)) && result == Weave(FenceParts(text), CB, 0)
    ensures var parts := Split(text, FENCE);
            if |parts| < 3 then blocks == [] && result == text
            else |blocks| == |parts| / 2 && forall k :: 0 <= k < |parts| / 2 ==> blocks[k] == parts[2 * k + 1]
  {
    var parts := Split(text, FENCE);
    if |parts| < 3 {
      return [], text;
    }
    var sb := "";
    blocks := [];
    for i := 0 to |parts|
      invariant blocks == Odds(parts[..i]) && sb == Weave(parts[..i], CB, 0)
    {
      BlockStep(parts, i);
      if i % 2 == 1 {
        blocks := blocks + [parts[i]];
        sb := sb + Placeholder(CB, |blocks| - 1);
      } else {
        sb := sb + parts[i];
      }
    }
    assert parts[..|parts|] == parts;
    OddsAt(parts);
    if |parts| % 2 == 0 {
      LastFence(parts);
      sb := sb + FENCE;
      sb := sb + parts[|parts| - 1];
    }
    result := sb;
  }

  // ---- inline code ----

  /** Text and code in turn; an unpaired last backtick is text. */
  function InlineParts(text: string): (ps: seq<string>)
    ensures |ps| % 2 == 1
  {
    var parts := Split(text, TICK);
    if |parts| % 2 == 1 then parts else LastTwoGlued(parts, TICK)
  }

  function LastTwoGlued(parts: seq<string>, q: string): seq<string>
    requires |parts| >= 2
  {
    var n := |parts|;
    parts[..n - 2] + [parts[n - 2] + q + parts[n - 1]]
  }

  /** Searching for a backtick is searching for the character. */
  lemma TickAt(s: string)
    ensures var i := Find(s, TICK);
            if i < 0 then '`' !in s else i < |s| && s[i] == '`' && forall k :: 0 <= k < i ==> s[k] != '`'
  {
    assert forall k :: 0 <= k < |s| ==> (s[k] == '`' <==> HasAt(s, k, TICK));
  }

  lemma TickFirst(s: string, i: nat)
    requires i < |s| && s[i] == '`' && forall k :: 0 <= k < i ==> s[k] != '`'
    ensures Split(s, TICK) == [s[..i]] + Split(s[i + 1..], TICK)
  {
    TickAt(s);
    assert Find(s, TICK) == i;
  }

  lemma NoTick(s: string)
    requires '`' !in s
    ensures Split(s, TICK) == [s]
  {
    TickAt(s);
  }

  /** One more character: a new empty part after a backtick, otherwise a longer last part. */
  function PushChar(ps: seq<string>, c: char): seq<string>
    requires ps != []
  {
    if c == '`' then ps + [""] else ps[..|ps| - 1] + [ps[|ps| - 1] + [c]]
  }

  lemma PushCharCons(p: string, ps: seq<string>, c: char)
    requires ps != []
    ensures PushChar([p] + ps, c) == [p] + PushChar(ps, c)
  {
  }

  lemma {:induction false} SplitPush(s: string, c: char)
    ensures Split(s + [c], TICK) == PushChar(Split(s, TICK), c)
    decreases |s|
  {
    TickAt(s);
    var i := Find(s, TICK);
    if i >= 0 {
      SplitPush(s[i + 1..], c);
      SplitPushAfter(s, c, i);
    } else {
      SplitPushEnd(s, c);
    }
  }

  lemma SplitPushAfter(s: string, c: char, i: nat)
    requires i < |s| && s[i] == '`' && forall k :: 0 <= k < i ==> s[k] != '`'
    requires Split(s[i + 1..] + [c], TICK) == PushChar(Split(s[i + 1..], TICK), c)
    ensures Split(s + [c], TICK) == PushChar(Split(s, TICK), c)
  {
    PushedParts(s, c, i);
    SplitsAt(s, i, s[..i], s[i + 1..]);
    SplitsAt(s + [c], i, s[..i], s[i + 1..] + [c]);
    PushCharCons(s[..i], Split(s[i + 1..], TICK), c);
  }

  lemma PushedParts(s: string, c: char, i: nat)
    requires i < |s|
    ensures (s + [c])[..i] == s[..i] && (s + [c])[i + 1..] == s[i + 1..] + [c]
    ensures forall k :: 0 <= k <= i ==> (s + [c])[k] == s[k]
  {
  }

  lemma SplitsAt(s: string, i: nat, a: string, b: string)
    requires i < |s| && s[i] == '`' && (forall k :: 0 <= k < i ==> s[k] != '`') && s[..i] == a && s[i + 1..] == b
    ensures Split(s, TICK) == [a] + Split(b, TICK)
  {
    TickFirst(s, i);
  }

  lemma SplitPushEnd(s: string, c: char)
    requires '`' !in s
    ensures Split(s + [c], TICK) == PushChar(Split(s, TICK), c)
  {
    var u := s + [c];
    NoTick(s);
    if c == '`' {
      assert u[..|s|] == s && u[|s| + 1..] == "";
      TickFirst(u, |s|);
      NoTick("");
    } else {
      NoTick(u);
    }
  }

  /** How the scanner's variables stand to the parts of what it has read. */
  predicate Scanned(ps: seq<string>, inCode: bool, codes: seq<string>, sb: string, open: string) {
    && ps != []
    && (inCode <==> |ps| % 2 == 0)
    && (if inCode then codes == Odds(ps[..|ps| - 1]) && sb == Weave(ps[..|ps| - 1], IC, 0) && open == ps[|ps| - 1]
        else codes == Odds(ps) && sb == Weave(ps, IC, 0))
  }

  lemma OpenTick(ps: seq<string>, codes: seq<string>, sb: string, open: string)
    requires Scanned(ps, false, codes, sb, open)
    ensures Scanned(PushChar(ps, '`'), true, codes, sb, "")
  {
    assert (ps + [""])[..|ps|] == ps;
  }

  lemma CloseTick(ps: seq<string>, codes: seq<string>, sb: string, open: string)
    requires Scanned(ps, true, codes, sb, open)
    ensures Scanned(PushChar(ps, '`'), false, codes + [open], sb + Placeholder(IC, |codes|), "")
  {
    var front := ps[..|ps| - 1];
    assert ps == front + [open];
    OddsTwo(front, ps, open, "");
    WeaveCode(front, open);
    EmptyPart(ps);
    OddsAt(front);
  }

  lemma OddsTwo<T>(a: seq<T>, b: seq<T>, p: T, q: T)
    requires |a| % 2 == 1 && b == a + [p]
    ensures Odds(b + [q]) == Odds(a) + [p]
  {
    OddsPush(a, p);
    OddsPush(b, q);
  }

  lemma WeaveCode(front: seq<string>, code: string)
    requires |front| % 2 == 1
    ensures Weave(front + [code], IC, 0) == Weave(front, IC, 0) + Placeholder(IC, |front| / 2)
  {
    WeavePush(front, code, IC, 0);
    assert Piece(code, IC, 0, |front|) == Placeholder(IC, |front| / 2);
  }

  lemma EmptyPart(ps: seq<string>)
    requires |ps| % 2 == 0
    ensures Weave(ps + [""], IC, 0) == Weave(ps, IC, 0)
  {
    WeavePush(ps, "", IC, 0);
    PlusNothing(Weave(ps, IC, 0));
  }

  lemma PlusNothing(a: string)
    ensures a + "" == a
  {
  }

  lemma CodeChar(ps: seq<string>, codes: seq<string>, sb: string, open: string, c: char)
    requires Scanned(ps, true, codes, sb, open) && c != '`'
    ensures Scanned(PushChar(ps, c), true, codes, sb, open + [c])
  {
    assert PushChar(ps, c)[..|ps| - 1] == ps[..|ps| - 1];
  }

  lemma TextChar(ps: seq<string>, codes: seq<string>, sb: string, open: string, c: char)
    requires Scanned(ps, false, codes, sb, open) && c != '`'
    ensures Scanned(PushChar(ps, c), false, codes, sb + [c], open)
  {
    var front, last := ps[..|ps| - 1], ps[|ps| - 1];
    assert ps == front + [last];
    LongerText(front, ps, PushChar(ps, c), last, c);
  }

  lemma LongerText(front: seq<string>, ps: seq<string>, qs: seq<string>, last: string, c: char)
    requires |front| % 2 == 0 && ps == front + [last] && qs == front + [last + [c]]
    ensures Odds(qs) == Odds(ps) && Weave(qs, IC, 0) == Weave(ps, IC, 0) + [c]
  {
    OddsPush(front, last);
    OddsPush(front, last + [c]);
    WeavePush(front, last, IC, 0);
    WeavePush(front, last + [c], IC, 0);
    WeaveTwo(Weave(front, IC, 0), last, [c]);
  }

  lemma UnpairedTick(ps: seq<string>, codes: seq<string>, sb: string, open: string)
    requires Scanned(ps, true, codes, sb, open)
    ensures var n := |ps|;
            var qs := ps[..n - 2] + [ps[n - 2] + TICK + ps[n - 1]];
            Odds(qs) == codes && Weave(qs, IC, 0) == sb + TICK + open
  {
    var n := |ps|;
    var front, a := ps[..n - 2], ps[n - 2];
    assert ps[..n - 1] == front + [a];
    OddsPush(front, a);
    OddsPush(front, a + TICK + open);
    WeavePush(front, a, IC, 0);
    WeavePush(front, a + TICK + open, IC, 0);
    Assoc(Weave(front, IC, 0), a, TICK, open);
  }

  predicate ScannedTo(text: string, i: nat, inCode: bool, codes: seq<string>, sb: string, codeStart: int) {
    && 0 <= codeStart <= i <= |text|
    && Scanned(Split(text[..i], TICK), inCode, codes, sb, text[codeStart..i])
  }

  /** One turn of the scanner's loop. */
  lemma ScanStep(text: string, i: nat, inCode: bool, codes: seq<string>, sb: string, codeStart: nat)
    requires i < |text| && ScannedTo(text, i, inCode, codes, sb, codeStart)
    ensures if text[i] == '`' then
              if inCode then ScannedTo(text, i + 1, false, codes + [text[codeStart..i]], sb + Placeholder(IC, |codes|), codeStart)
              else ScannedTo(text, i + 1, true, codes, sb, i + 1)
            else
              ScannedTo(text, i + 1, inCode, codes, if inCode then sb else sb + [text[i]], codeStart)
  {
    var ps, open := Split(text[..i], TICK), text[codeStart..i];
    assert text[..i + 1] == text[..i] + [text[i]];
    assert text[codeStart..i + 1] == open + [text[i]] && text[i + 1..i + 1] == "";
    SplitPush(text[..i], text[i]);
    if text[i] == '`' {
      if inCode {
        CloseTick(ps, codes, sb, open);
      } else {
        OpenTick(ps, codes, sb, open);
      }
    } else if inCode {
      CodeChar(ps, codes, sb, open, text[i]);
    } else {
      TextChar(ps, codes, sb, open, text[i]);
    }
  }

  lemma ScanStart(text: string)
    ensures ScannedTo(text, 0, false, [], "", 0)
  {
    NoTick("");
    assert text[..0] == "";
  }

  lemma ScanEnd(text: string, inCode: bool, codes: seq<string>, sb: string, codeStart: int)
    requires ScannedTo(text, |text|, inCode, codes, sb, codeStart)
    ensures codes == Odds(InlineParts(text))
    ensures Weave(InlineParts(text), IC, 0) == if inCode then sb + TICK + text[codeStart..] else sb
  {
    assert text[..|text|] == text && text[codeStart..|text|] == text[codeStart..];
    if inCode {
      UnpairedTick(Split(text, TICK), codes, sb, text[codeStart..]);
    }
  }

  /** The parts between an opening and a closing separator. */
  predicate EverySecond(parts: seq<string>, codes: seq<string>)
    requires parts != []
  {
    var m := (|parts| - 1) / 2;
    |codes| == m && forall k :: 0 <= k < m ==> codes[k] == parts[2 * k + 1]
  }

  lemma InlineOdds(text: string)
    ensures EverySecond(Split(text, TICK), Odds(InlineParts(text)))
  {
    var parts := Split(text, TICK);
    if |parts| % 2 == 1 {
      OddsAt(parts);
    } else {
      GluedOdds(parts, parts[..|parts| - 2], parts[|parts| - 2] + TICK + parts[|parts| - 1]);
    }
  }

  lemma GluedOdds(parts: seq<string>, front: seq<string>, last: string)
    requires |parts| >= 2 && |parts| % 2 == 0 && front == parts[..|parts| - 2]
    ensures EverySecond(parts, Odds(front + [last]))
  {
    OddsPush(front, last);
    OddsAt(front);
  }

  method ExtractInlineCodes(text: string) returns (codes: seq<string>, result: string)
    ensures codes == Odds(InlineParts(text)) && result == Weave(InlineParts(text), IC, 0)
    ensures EverySecond(Split(text, TICK), codes)
  {
    var sb, inCode, codeStart := "", false, 0;
    codes := [];
    ScanStart(text);
    for i := 0 to |text|
      invariant ScannedTo(text, i, inCode, codes, sb, codeStart)
    {
      ScanStep(text, i, inCode, codes, sb, codeStart);
      if text[i] == '`' {
        if inCode {
          codes := codes + [text[codeStart..i]];
          sb := sb + Placeholder(IC, |codes| - 1);
          inCode := false;
        } else {
          inCode := true;
          codeStart := i + 1;
        }
      } else if !inCode {
        sb := sb + [text[i]];
      }
    }
    ScanEnd(text, inCode, codes, sb, codeStart);
    InlineOdds(text);
    if inCode {
      sb := sb + TICK;
      sb := sb + text[codeStart..];
    }
    result := sb;
  }

  // ---- extraction followed by its own restore loop ----

  function Wrapped(codes: seq<string>, q: string): seq<string> {
    seq(|codes|, k requires 0 <= k < |codes| => q + codes[k] + q)
  }

  method RestoreLoop(s: string, t: Tag, vals: seq<string>) returns (r: string)
    ensures r == Restore(s, t, vals, 0)
  {
    r := s;
    for i := 0 to |vals|
      invariant Restore(s, t, vals, 0) == Restore(r, t, vals, i)
    {
      r := ReplaceFirst(r, Placeholder(t, i), vals[i]);
    }
  }

  /** Restored in order, the next placeholder is always behind the first NUL of the text. */
  lemma {:induction false} RestoreInOrder(pre: string, ps: seq<string>, t: Tag, n: nat, q: string, vals: seq<string>)
    requires |ps| % 2 == 1 && NulFree(pre) && NulFree(q) && forall k :: 0 <= k < |ps| ==> NulFree(ps[k])
    requires |vals| == n + |ps| / 2 && forall k :: 0 <= k < |ps| / 2 ==> vals[n + k] == q + ps[2 * k + 1] + q
    ensures Restore(pre + Weave(ps, t, n), t, vals, n) == pre + Join(ps, q)
    decreases |ps|
  {
    if |ps| >= 3 {
      NextValues(ps, n, q, vals);
      FirstRestored(pre, ps, t, n, vals[n]);
      RestoreInOrder((pre + ps[0]) + vals[n], ps[2..], t, n + 1, q, vals);
      JoinThree(pre, ps, q);
    }
  }

  lemma NextValues(ps: seq<string>, n: nat, q: string, vals: seq<string>)
    requires |ps| >= 3 && |vals| == n + |ps| / 2 && forall k :: 0 <= k < |ps| / 2 ==> vals[n + k] == q + ps[2 * k + 1] + q
    ensures vals[n] == q + ps[1] + q
    ensures forall k :: 0 <= k < |ps[2..]| / 2 ==> vals[n + 1 + k] == q + ps[2..][2 * k + 1] + q
  {
    var k0 := 0;
    assert vals[n + k0] == q + ps[2 * k0 + 1] + q;
    forall k | 0 <= k < |ps[2..]| / 2 ensures vals[n + 1 + k] == q + ps[2..][2 * k + 1] + q {
      assert vals[n + (k + 1)] == q + ps[2 * (k + 1) + 1] + q;
    }
  }

  lemma FirstRestored(pre: string, ps: seq<string>, t: Tag, n: nat, val: string)
    requires |ps| >= 3 && NulFree(pre) && NulFree(ps[0])
    ensures ReplaceFirst(pre + Weave(ps, t, n), Placeholder(t, n), val) == (pre + ps[0]) + val + Weave(ps[2..], t, n + 1)
  {
    var rest := Weave(ps[2..], t, n + 1);
    BodyChars(t, n);
    assert pre + Weave(ps, t, n) == (pre + ps[0]) + [NUL] + Body(t, n) + [NUL] + rest;
    ReplaceAtFirstHole(pre + ps[0], Body(t, n), rest, val);
  }

  lemma JoinThree(pre: string, ps: seq<string>, q: string)
    requires |ps| >= 3
    ensures (pre + ps[0]) + (q + ps[1] + q) + Join(ps[2..], q) == pre + Join(ps, q)
  {
    assert ps[1..][1..] == ps[2..];
    assert Join(ps[1..], q) == ps[1] + q + Join(ps[2..], q);
    JoinedPieces(pre, ps[0], q, ps[1], Join(ps[2..], q));
  }

  lemma JoinedPieces(pre: string, a: string, q: string, b: string, c: string)
    ensures (pre + a) + (q + b + q) + c == pre + (a + q + (b + q + c))
  {
  }

  lemma {:induction false} PartsNulFree(s: string, sep: string)
    requires sep != "" && NulFree(s)
    ensures forall k :: 0 <= k < |Split(s, sep)| ==> NulFree(Split(s, sep)[k])
    decreases |s|
  {
    var i := Find(s, sep);
    if i >= 0 {
      PartsNulFree(s[i + |sep|..], sep);
    }
  }

  lemma {:induction false} JoinPush(ps: seq<string>, p: string, sep: string)
    requires ps != []
    ensures Join(ps + [p], sep) == Join(ps, sep) + sep + p
    decreases |ps|
  {
    if |ps| == 1 {
      assert (ps + [p])[1..] == [p];
    } else {
      JoinPush(ps[1..], p, sep);
      assert (ps + [p])[1..] == ps[1..] + [p];
      assert ps[0] + sep + (Join(ps[1..], sep) + sep + p) == ps[0] + sep + Join(ps[1..], sep) + sep + p;
    }
  }

  /** Gluing the last two parts together with the separator does not change the joined text. */
  lemma JoinGlued(front: seq<string>, a: string, b: string, sep: string)
    ensures Join(front + [a] + [b], sep) == Join(front + [a + sep + b], sep)
  {
    JoinPush(front + [a], b, sep);
    if front != [] {
      JoinPush(front, a, sep);
      JoinPush(front, a + sep + b, sep);
      Regroup4(Join(front, sep) + sep, a, sep, b);
    } else {
      assert front + [a] == [a] && front + [a + sep + b] == [a + sep + b];
    }
  }

  lemma Regroup4(x: string, a: string, b: string, c: string)
    ensures x + a + b + c == x + (a + b + c)
  {
  }

  lemma InlineJoin(text: string)
    ensures Join(InlineParts(text), TICK) == text
  {
    var parts := Split(text, TICK);
    var n := |parts|;
    JoinSplit(text, TICK);
    if n % 2 == 0 {
      JoinLastTwo(parts, TICK);
    }
  }

  lemma JoinLastTwo(parts: seq<string>, q: string)
    requires |parts| >= 2
    ensures Join(LastTwoGlued(parts, q), q) == Join(parts, q)
  {
    var n := |parts|;
    assert parts == parts[..n - 2] + [parts[n - 2]] + [parts[n - 1]];
    JoinGlued(parts[..n - 2], parts[n - 2], parts[n - 1], q);
  }

  /** The number of fences in a text. */
  function Fences(text: string): nat {
    |Split(text, FENCE)| - 1
  }

  /** A text whose last segment is repeated if its fences do not pair, of three or more. */
  function Repeating(parts: seq<string>, text: string, q: string): (r: string)
    requires parts != [] && q != ""
    ensures r == text <==> |parts| < 4 || |parts| % 2 == 1
  {
    if |parts| >= 4 && |parts| % 2 == 0 then text + q + q + parts[|parts| - 1] else text
  }

  lemma FenceJoin(text: string)
    ensures Join(FenceParts(text), FENCE) == Repeating(Split(text, FENCE), text, FENCE)
  {
    JoinSplit(text, FENCE);
    JoinRegular(Split(text, FENCE), text, FENCE);
  }

  lemma JoinRegular(parts: seq<string>, text: string, q: string)
    requires parts != [] && q != "" && Join(parts, q) == text
    ensures Join(Regular(parts, text, q), q) == Repeating(parts, text, q)
  {
    if |parts| >= 4 && |parts| % 2 == 0 {
      JoinExtra(parts, q);
    }
  }

  lemma JoinExtra(parts: seq<string>, q: string)
    requires parts != []
    ensures Join(LastRepeated(parts, q), q) == Join(parts, q) + q + q + parts[|parts| - 1]
  {
    var last := parts[|parts| - 1];
    JoinPush(parts, q + last, q);
    WeaveTwo(Join(parts, q) + q, q, last);
  }

  lemma WrappedOdds(ps: seq<string>, q: string)
    ensures var vals := Wrapped(Odds(ps), q);
            |vals| == |ps| / 2 && forall k :: 0 <= k < |ps| / 2 ==> vals[k] == q + ps[2 * k + 1] + q
  {
    OddsAt(ps);
  }

  lemma RestoreAllInOrder(ps: seq<string>, t: Tag, q: string)
    requires |ps| % 2 == 1 && NulFree(q) && forall k :: 0 <= k < |ps| ==> NulFree(ps[k])
    ensures Restore(Weave(ps, t, 0), t, Wrapped(Odds(ps), q), 0) == Join(ps, q)
  {
    WrappedOdds(ps, q);
    RestoreInOrder("", ps, t, 0, q, Wrapped(Odds(ps), q));
    assert "" + Weave(ps, t, 0) == Weave(ps, t, 0) && "" + Join(ps, q) == Join(ps, q);
  }

  /** Inline code: extraction undone by its restore loop, for every NUL-free text. */
  lemma InlineRoundTrip(text: string)
    requires NulFree(text)
    ensures var ps := InlineParts(text);
            Restore(Weave(ps, IC, 0), IC, Wrapped(Odds(ps), TICK), 0) == text
  {
    var ps := InlineParts(text);
    PartsNulFree(text, TICK);
    RestoreAllInOrder(ps, IC, TICK);
    InlineJoin(text);
  }

  /** Fences: the same exactly when there are fewer than three or an even number; otherwise the last segment is repeated. */
  lemma FenceRoundTrip(text: string)
    requires NulFree(text)
    ensures var ps, parts := FenceParts(text), Split(text, FENCE);
            var back := Restore(Weave(ps, CB, 0), CB, Wrapped(Odds(ps), FENCE), 0);
            && (back == text <==> Fences(text) < 3 || Fences(text) % 2 == 0)
            && (back != text ==> back == text + FENCE + FENCE + parts[|parts| - 1])
  {
    var ps := FenceParts(text);
    PartsNulFree(text, FENCE);
    RestoreAllInOrder(ps, CB, FENCE);
    FenceJoin(text);
    RepeatedOrNot(Split(text, FENCE), text, FENCE);
  }

  lemma RepeatedOrNot(parts: seq<string>, text: string, q: string)
    requires parts != [] && q != ""
    ensures var back, n := Repeating(parts, text, q), |parts| - 1;
            (back == text <==> n < 3 || n % 2 == 0) && (back != text ==> back == text + q + q + parts[n])
  {
  }
}
