/** What the two extractions take out of a text and what they leave, in terms of the text cut at its backticks. */
module CodeExtraction {
  import opened Search
  import opened Placeholders
  import opened Extraction
  import opened DocExtraction
  import opened Escape
  import opened Mrkdwn

  // ---- cutting ----

  /** How often a separator occurs, counted from the left without overlap. */
  function Occurrences(s: string, q: string): nat
    requires q != ""
  {
    |Split(s, q)| - 1
  }

  lemma FrontFree(s: string, q: string)
    requires q != "" && Find(s, q) >= 0
    ensures Find(s[..Find(s, q)], q) < 0
  {
    var i := Find(s, q);
    forall k ensures HasAt(s[..i], k, q) ==> HasAt(s, k, q) && 0 <= k < i {
      if HasAt(s[..i], k, q) {
        SliceOfTake(s, i, k, k + |q|);
      }
    }
  }

  /** No part of a split holds the separator. */
  lemma {:induction false} PartsFree(s: string, q: string)
    requires q != ""
    ensures forall k :: 0 <= k < |Split(s, q)| ==> Find(Split(s, q)[k], q) < 0
    decreases |s|
  {
    var i := Find(s, q);
    if i >= 0 {
      FrontFree(s, q);
      PartsFree(s[i + |q|..], q);
      SplitHead(s, q, i);
    }
  }

  // ---- every second part, and what is woven from the others ----

  function Evens<T>(ps: seq<T>): seq<T> {
    if ps == [] then [] else if |ps| == 1 then [ps[0]] else [ps[0]] + Evens(ps[2..])
  }

  lemma {:induction false} EvensAt<T>(ps: seq<T>)
    ensures |Evens(ps)| == (|ps| + 1) / 2
    ensures forall k :: 0 <= k < (|ps| + 1) / 2 ==> Evens(ps)[k] == ps[2 * k]
  {
    if |ps| >= 2 {
      EvensAt(ps[2..]);
      forall k | 0 <= k < (|ps| + 1) / 2 ensures Evens(ps)[k] == ps[2 * k] {
        if k > 0 {
          assert Evens(ps)[k] == Evens(ps[2..])[k - 1] == ps[2..][2 * (k - 1)];
        }
      }
    }
  }

  /** A text with holes given by its literals and its placeholders' numbers: `lits[0]`, number `n`, `lits[1]`, and so on. */
  function Laid(lits: seq<string>, t: Tag, n: nat): string {
    if lits == [] then ""
    else if |lits| == 1 then lits[0]
    else lits[0] + [NUL] + Letters(t) + Dec(n) + [NUL] + Laid(lits[1..], t, n + 1)
  }

  lemma {:induction false} WeaveIsLaid(ps: seq<string>, t: Tag, n: nat)
    requires |ps| % 2 == 1
    ensures Weave(ps, t, n) == Laid(Evens(ps), t, n)
    decreases |ps|
  {
    if |ps| >= 3 {
      WeaveIsLaid(ps[2..], t, n + 1);
      EvensAt(ps);
      EvensAt(ps[2..]);
      var rest := Laid(Evens(ps[2..]), t, n + 1);
      assert Evens(ps)[1..] == Evens(ps[2..]);
      PlaceholderApart(ps[0], t, n, rest);
    }
  }

  lemma PlaceholderApart(l: string, t: Tag, n: nat, rest: string)
    ensures l + Placeholder(t, n) + rest == l + [NUL] + Letters(t) + Dec(n) + [NUL] + rest
  {
  }

  // ---- separators that are left ----

  /** The occurrences in all literals together. */
  function AllOccurrences(lits: seq<string>, q: string): nat
    requires q != ""
  {
    if lits == [] then 0 else Occurrences(lits[0], q) + AllOccurrences(lits[1..], q)
  }

  lemma BridgeSize(ps: seq<string>, mid: string, qs: seq<string>)
    requires ps != [] && qs != []
    ensures |Bridge(ps, mid, qs)| - 1 == (|ps| - 1) + (|qs| - 1)
  {
  }

  /** A placeholder neither holds a backtick nor lets one side's backticks meet the other's. */
  lemma {:induction false} WeaveOccurrences(ps: seq<string>, t: Tag, n: nat, q: string)
    requires |ps| % 2 == 1 && Ticks(q)
    ensures Occurrences(Weave(ps, t, n), q) == AllOccurrences(Evens(ps), q)
    decreases |ps|
  {
    if |ps| >= 3 {
      WeaveOccurrences(ps[2..], t, n + 1, q);
      PlaceholderForeign(t, n, q);
      SplitBridge(ps[0], Placeholder(t, n), Weave(ps[2..], t, n + 1), q);
      BridgeSize(Split(ps[0], q), Placeholder(t, n), Split(Weave(ps[2..], t, n + 1), q));
      assert Evens(ps)[1..] == Evens(ps[2..]);
    } else {
      assert Evens(ps)[1..] == [];
    }
  }

  lemma PlaceholderForeign(t: Tag, n: nat, q: string)
    requires Ticks(q)
    ensures Foreign(q, Placeholder(t, n)) && Placeholder(t, n) != ""
  {
    BodyChars(t, n);
  }

  lemma {:induction false} NoOccurrences(lits: seq<string>, q: string)
    requires q != "" && forall k :: 0 <= k < |lits| ==> Find(lits[k], q) < 0
    ensures AllOccurrences(lits, q) == 0
  {
    if lits != [] {
      SplitNone(lits[0], q);
      NoOccurrences(lits[1..], q);
    }
  }

  lemma {:induction false} OccurrencesPush(lits: seq<string>, l: string, q: string)
    requires q != ""
    ensures AllOccurrences(lits + [l], q) == AllOccurrences(lits, q) + Occurrences(l, q)
  {
    if lits == [] {
      assert lits + [l] == [l] && [l][1..] == [];
    } else {
      assert (lits + [l])[1..] == lits[1..] + [l];
      OccurrencesPush(lits[1..], l, q);
    }
  }

  // ---- code blocks ----

  /** The literals that are left: every second part, and after an odd number of fences the last one again, with its fence. */
  function FenceRest(parts: seq<string>): seq<string>
    requires parts != []
  {
    if |parts| % 2 == 1 then Evens(parts) else Evens(parts) + [FENCE + parts[|parts| - 1]]
  }

  lemma {:induction false} EvensPush<T>(ps: seq<T>, p: T)
    ensures Evens(ps + [p]) == if |ps| % 2 == 0 then Evens(ps) + [p] else Evens(ps)
  {
    if |ps| >= 2 {
      EvensPush(ps[2..], p);
      assert (ps + [p])[2..] == ps[2..] + [p];
    }
  }

  /**
   The blocks are the parts between an opening and a closing fence, one for two fences; what is left is the other
   parts with one placeholder for each block, numbered from 0.
   */
  lemma BlocksTaken(text: string)
    ensures var parts, ps := Split(text, FENCE), FenceParts(text);
            if |parts| < 3 then Odds(ps) == [] && Weave(ps, CB, 0) == text
            else
              && |Odds(ps)| == |parts| / 2 && (forall k :: 0 <= k < |parts| / 2 ==> Odds(ps)[k] == parts[2 * k + 1])
              && Weave(ps, CB, 0) == Laid(FenceRest(parts), CB, 0) && |FenceRest(parts)| == |parts| / 2 + 1
  {
    BlocksOf(Split(text, FENCE), text, FENCE);
  }

  lemma BlocksOf(parts: seq<string>, text: string, q: string)
    requires parts != [] && q == FENCE
    ensures var ps := Regular(parts, text, q);
            if |parts| < 3 then Odds(ps) == [] && Weave(ps, CB, 0) == text
            else
              && |Odds(ps)| == |parts| / 2 && (forall k :: 0 <= k < |parts| / 2 ==> Odds(ps)[k] == parts[2 * k + 1])
              && Weave(ps, CB, 0) == Laid(FenceRest(parts), CB, 0) && |FenceRest(parts)| == |parts| / 2 + 1
  {
    if |parts| >= 3 {
      OddsAt(parts);
      EvensAt(parts);
      WeaveIsLaid(Regular(parts, text, q), CB, 0);
      if |parts| % 2 == 0 {
        OddsPush(parts, q + parts[|parts| - 1]);
        EvensPush(parts, q + parts[|parts| - 1]);
      }
    }
  }

  lemma OneFence(l: string, q: string)
    requires q != "" && Find(l, q) < 0
    ensures Occurrences(q + l, q) == 1
  {
    var s := q + l;
    assert s[0..|q|] == q && HasAt(s, 0, q) && s[|q|..] == l;
    FindIs(s, q, 0);
    SplitHead(s, q, 0);
    SplitNone(l, q);
  }

  /** Fences are taken in pairs: at most one is left, and one exactly if their number was odd. */
  lemma FencesLeft(text: string)
    ensures Occurrences(Weave(FenceParts(text), CB, 0), FENCE) == Occurrences(text, FENCE) % 2
  {
    var parts := Split(text, FENCE);
    PartsFree(text, FENCE);
    if |parts| >= 3 {
      FenceRestLeft(parts, text);
    } else {
      FewFences(parts, text);
    }
  }

  lemma FewFences(parts: seq<string>, text: string)
    requires |parts| == 1 || |parts| == 2
    ensures Weave(Regular(parts, text, FENCE), CB, 0) == text
  {
  }

  lemma FenceRestLeft(parts: seq<string>, text: string)
    requires |parts| >= 3 && forall k :: 0 <= k < |parts| ==> Find(parts[k], FENCE) < 0
    ensures Occurrences(Weave(Regular(parts, text, FENCE), CB, 0), FENCE) == (|parts| - 1) % 2
  {
    var last := parts[|parts| - 1];
    WeaveOccurrences(Regular(parts, text, FENCE), CB, 0, FENCE);
    if |parts| % 2 == 0 {
      OneFence(last, FENCE);
      LastHolds(parts, FENCE + last, FENCE);
    } else {
      NoneLeft(parts, FENCE);
    }
  }

  // ---- inline code ----

  /** The literals that are left: every second part, an unpaired last backtick staying where it was. */
  function TickRest(parts: seq<string>): seq<string>
    requires parts != []
  {
    var n := |parts|;
    if n % 2 == 1 then Evens(parts) else Evens(parts[..n - 2]) + [parts[n - 2] + TICK + parts[n - 1]]
  }

  /** The codes are the parts between an opening and a closing backtick; what is left is the other parts with a placeholder for each code. */
  lemma CodesTaken(text: string)
    ensures var parts, ps := Split(text, TICK), InlineParts(text);
            var m := (|parts| - 1) / 2;
            && |Odds(ps)| == m && (forall k :: 0 <= k < m ==> Odds(ps)[k] == parts[2 * k + 1])
            && Weave(ps, IC, 0) == Laid(TickRest(parts), IC, 0) && |TickRest(parts)| == m + 1
  {
    var parts := Split(text, TICK);
    var n := |parts|;
    EveryOther(InlineParts(text), IC);
    if n % 2 == 0 {
      Unpaired(parts[..n - 2], parts[n - 2], TICK, parts[n - 1]);
      assert parts == parts[..n - 2] + [parts[n - 2]] + [parts[n - 1]];
    }
  }

  lemma EveryOther(ps: seq<string>, t: Tag)
    requires |ps| % 2 == 1
    ensures |Odds(ps)| == |ps| / 2 && forall k :: 0 <= k < |ps| / 2 ==> Odds(ps)[k] == ps[2 * k + 1]
    ensures Weave(ps, t, 0) == Laid(Evens(ps), t, 0) && |Evens(ps)| == |ps| / 2 + 1
  {
    OddsAt(ps);
    EvensAt(ps);
    WeaveIsLaid(ps, t, 0);
  }

  lemma Unpaired(front: seq<string>, a: string, q: string, b: string)
    requires |front| % 2 == 0
    ensures var ps, parts := front + [a + q + b], front + [a] + [b];
            && Evens(ps) == Evens(front) + [a + q + b]
            && forall k :: 0 <= k < |ps| / 2 ==> ps[2 * k + 1] == parts[2 * k + 1]
  {
    EvensPush(front, a + q + b);
  }

  lemma OneTick(a: string, b: string)
    requires Find(a, TICK) < 0 && Find(b, TICK) < 0
    ensures Occurrences(a + TICK + b, TICK) == 1
  {
    var s := a + TICK + b;
    var q := TICK + b;
    assert s == a + q;
    forall i | 0 <= i < |a| ensures !HasAt(s, i, TICK) {
      assert a[i..i + 1] == s[i..i + 1] && !HasAt(a, i, TICK);
    }
    assert s[|a|..|a| + 1] == TICK && s[|a| + 1..] == b;
    FindIs(s, TICK, |a|);
    SplitHead(s, TICK, |a|);
    SplitNone(b, TICK);
  }

  /** Backticks are taken in pairs. */
  lemma TicksLeft(text: string)
    ensures Occurrences(Weave(InlineParts(text), IC, 0), TICK) == Occurrences(text, TICK) % 2
  {
    PartsFree(text, TICK);
    TickRestLeft(Split(text, TICK), InlineParts(text));
  }

  /** Of literals in which only the last one holds the separator, only that one counts. */
  lemma LastHolds(front: seq<string>, last: string, q: string)
    requires q != "" && |front| % 2 == 0 && forall k :: 0 <= k < |front| ==> Find(front[k], q) < 0
    ensures AllOccurrences(Evens(front + [last]), q) == Occurrences(last, q)
  {
    EvensAt(front);
    EvensPush(front, last);
    NoOccurrences(Evens(front), q);
    OccurrencesPush(Evens(front), last, q);
  }

  lemma TickRestLeft(parts: seq<string>, ps: seq<string>)
    requires parts != [] && forall k :: 0 <= k < |parts| ==> Find(parts[k], TICK) < 0
    requires ps == if |parts| % 2 == 1 then parts else LastTwoGlued(parts, TICK)
    ensures Occurrences(Weave(ps, IC, 0), TICK) == (|parts| - 1) % 2
  {
    WeaveOccurrences(ps, IC, 0, TICK);
    if |parts| % 2 == 0 {
      UnpairedLeft(parts[..|parts| - 2], parts[|parts| - 2], parts[|parts| - 1]);
    } else {
      NoneLeft(parts, TICK);
    }
  }

  lemma UnpairedLeft(front: seq<string>, a: string, b: string)
    requires |front| % 2 == 0 && Find(a, TICK) < 0 && Find(b, TICK) < 0
    requires forall k :: 0 <= k < |front| ==> Find(front[k], TICK) < 0
    ensures AllOccurrences(Evens(front + [a + TICK + b]), TICK) == 1
  {
    OneTick(a, b);
    LastHolds(front, a + TICK + b, TICK);
  }

  lemma NoneLeft(parts: seq<string>, q: string)
    requires q != "" && forall k :: 0 <= k < |parts| ==> Find(parts[k], q) < 0
    ensures AllOccurrences(Evens(parts), q) == 0
  {
    EvensAt(parts);
    NoOccurrences(Evens(parts), q);
  }

  // ---- in the pipeline ----

  /** The text as it is cut at its fences: tokens replaced by placeholders, the rest escaped. */
  function Escaped(ps: seq<string>): string {
    EscapeEntities(Weave(ps, ST, 0))
  }

  /** The text as it is cut at its backticks: what the code blocks have left. */
  function Blockless(ps: seq<string>): string {
    Weave(FenceParts(Escaped(ps)), CB, 0)
  }

  /** What the pipeline keeps from being rewritten: every part between two fences, then every part between two of the remaining backticks. */
  lemma ProtectedCode(ps: seq<string>)
    ensures var fs, x := Split(Escaped(ps), FENCE), Protect(ps);
            && |x.blocks| == (if |fs| < 3 then 0 else |fs| / 2)
            && (forall k :: 0 <= k < |x.blocks| ==> x.blocks[k] == fs[2 * k + 1])
            && Occurrences(Blockless(ps), FENCE) == Occurrences(Escaped(ps), FENCE) % 2
    ensures var ts, x := Split(Blockless(ps), TICK), Protect(ps);
            && |x.codes| == (|ts| - 1) / 2
            && (forall k :: 0 <= k < |x.codes| ==> x.codes[k] == ts[2 * k + 1])
            && Occurrences(x.text, TICK) == Occurrences(Blockless(ps), TICK) % 2
  {
    BlocksTaken(Escaped(ps));
    FencesLeft(Escaped(ps));
    CodesTaken(Blockless(ps));
    TicksLeft(Blockless(ps));
  }
}
