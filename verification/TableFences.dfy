/** convertTablesToCodeBlocks of internal/slackmrkdwn/format.go: runs of table rows are put between code fences. */
module TableFences {
  import opened Search

  /** How the two regular expressions see a line; a separator is a row as well. */
  datatype Kind = Row | Separator | Other

  /** A line of the output: one that the program adds, or one of the input. */
  datatype OutLine = Fence | Line(text: string)

  function Lines(ls: seq<string>): seq<OutLine> {
    seq(|ls|, k requires 0 <= k < |ls| => Line(ls[k]))
  }

  predicate InTable(kind: string -> Kind, l: string) {
    kind(l) != Other
  }

  /** The lines that are no separators. */
  function Kept(ls: seq<string>, kind: string -> Kind): seq<string> {
    if ls == [] then []
    else (if kind(ls[0]) == Separator then [] else [ls[0]]) + Kept(ls[1..], kind)
  }

  /** The number of table lines at the front. */
  function Run(ls: seq<string>, kind: string -> Kind): (n: nat)
    ensures n <= |ls|
    ensures forall k :: 0 <= k < n ==> InTable(kind, ls[k])
    ensures n < |ls| ==> !InTable(kind, ls[n])
  {
    if ls == [] || !InTable(kind, ls[0]) then 0 else 1 + Run(ls[1..], kind)
  }

  /** One pair of fences for each run of table lines; only a run of mere separators at the very end gets none. */
  function Convert(ls: seq<string>, kind: string -> Kind): seq<OutLine>
    decreases |ls|
  {
    if ls == [] then []
    else if !InTable(kind, ls[0]) then [Line(ls[0])] + Convert(ls[1..], kind)
    else
      var n := Run(ls, kind);
      var rows := Kept(ls[..n], kind);
      if n == |ls| && rows == [] then [] else [Fence] + Lines(rows) + [Fence] + Convert(ls[n..], kind)
  }

  // ---- the loop ----

  /** What the loop has appended and still holds back, and what the rest of the lines will add. */
  function Pending(inTable: bool, rows: seq<string>, ls: seq<string>, kind: string -> Kind): seq<OutLine> {
    if !inTable then Convert(ls, kind)
    else
      var n := Run(ls, kind);
      var all := rows + Kept(ls[..n], kind);
      if n == |ls| && all == [] then [] else [Fence] + Lines(all) + [Fence] + Convert(ls[n..], kind)
  }

  lemma OpenTable(ls: seq<string>, kind: string -> Kind)
    requires ls != [] && InTable(kind, ls[0])
    ensures Pending(false, [], ls, kind) == Pending(true, [], ls, kind)
  {
    assert [] + Kept(ls[..Run(ls, kind)], kind) == Kept(ls[..Run(ls, kind)], kind);
  }

  lemma TableLine(rows: seq<string>, ls: seq<string>, kind: string -> Kind)
    requires ls != [] && InTable(kind, ls[0])
    ensures Pending(true, rows, ls, kind) ==
            Pending(true, if kind(ls[0]) == Separator then rows else rows + [ls[0]], ls[1..], kind)
  {
    var n := Run(ls, kind);
    assert ls[..n][1..] == ls[1..][..n - 1];
    assert ls[n..] == ls[1..][n - 1..];
    if kind(ls[0]) != Separator {
      assert rows + ([ls[0]] + Kept(ls[1..][..n - 1], kind)) == rows + [ls[0]] + Kept(ls[1..][..n - 1], kind);
    } else {
      assert rows + ([] + Kept(ls[1..][..n - 1], kind)) == rows + Kept(ls[1..][..n - 1], kind);
    }
  }

  lemma CloseTable(rows: seq<string>, ls: seq<string>, kind: string -> Kind)
    requires ls != [] && !InTable(kind, ls[0])
    ensures Pending(true, rows, ls, kind) == [Fence] + Lines(rows) + [Fence] + Pending(false, [], ls, kind)
  {
    assert ls[..0] == [] && ls[0..] == ls && rows + [] == rows;
  }

  lemma EndTable(rows: seq<string>, kind: string -> Kind)
    ensures Pending(true, rows, [], kind) == if rows == [] then [] else [Fence] + Lines(rows) + [Fence]
  {
    assert rows + Kept([], kind) == rows;
    var none: seq<string> := [];
    assert none[..0] == [] && none[0..] == [];
  }

  lemma Push(result: seq<OutLine>, a: seq<OutLine>, l: OutLine, rest: seq<OutLine>)
    ensures result + (a + ([l] + rest)) == result + a + [l] + rest
  {
  }

  method ConvertTables(lines: seq<string>, kind: string -> Kind) returns (result: seq<OutLine>)
    ensures result == Convert(lines, kind)
  {
    result := [];
    var tableLines: seq<string>, inTable := [], false;
    ghost var all, ahead := Convert(lines, kind), Convert(lines, kind);
    assert lines[0..] == lines && result + ahead == ahead;
    for i := 0 to |lines|
      invariant !inTable ==> tableLines == []
      invariant ahead == Pending(inTable, tableLines, lines[i..], kind)
      invariant result + ahead == all
    {
      var line, rest := lines[i], lines[i..];
      assert rest[0] == line && rest[1..] == lines[i + 1..];
      if kind(line) != Other {
        if !inTable {
          OpenTable(rest, kind);
          inTable := true;
          tableLines := [];
        }
        TableLine(tableLines, rest, kind);
        if kind(line) == Separator {
          continue;
        }
        tableLines := tableLines + [line];
      } else {
        var closing := [];
        if inTable {
          CloseTable(tableLines, rest, kind);
          closing := [Fence] + Lines(tableLines) + [Fence];
          inTable := false;
          tableLines := [];
        }
        ahead := Pending(false, [], rest[1..], kind);
        Push(result, closing, Line(line), ahead);
        result := result + closing;
        result := result + [Line(line)];
      }
    }
    assert lines[|lines|..] == [] && result + [] == result;
    if inTable {
      EndTable(tableLines, kind);
      if |tableLines| > 0 {
        result := result + ([Fence] + Lines(tableLines) + [Fence]);
      }
    }
  }

  // ---- what the fences do ----

  /** The output without the added lines. */
  function Unfenced(out: seq<OutLine>): seq<string> {
    if out == [] then []
    else (if out[0].Fence? then [] else [out[0].text]) + Unfenced(out[1..])
  }

  /**
   Fences open and close in turn and end closed; between an opening and a closing one there are only rows,
   outside only other lines.
   */
  predicate WellFenced(out: seq<OutLine>, open: bool, kind: string -> Kind) {
    if out == [] then !open
    else if out[0].Fence? then WellFenced(out[1..], !open, kind)
    else kind(out[0].text) == (if open then Row else Other) && WellFenced(out[1..], open, kind)
  }

  lemma {:induction false} UnfencedConcat(a: seq<OutLine>, b: seq<OutLine>)
    ensures Unfenced(a + b) == Unfenced(a) + Unfenced(b)
  {
    if a == [] {
      assert a + b == b;
    } else {
      assert (a + b)[1..] == a[1..] + b;
      UnfencedConcat(a[1..], b);
    }
  }

  lemma {:induction false} UnfencedLines(ls: seq<string>)
    ensures Unfenced(Lines(ls)) == ls
  {
    if ls != [] {
      assert Lines(ls)[1..] == Lines(ls[1..]);
      UnfencedLines(ls[1..]);
    }
  }

  lemma {:induction false} KeptConcat(a: seq<string>, b: seq<string>, kind: string -> Kind)
    ensures Kept(a + b, kind) == Kept(a, kind) + Kept(b, kind)
  {
    if a == [] {
      assert a + b == b;
    } else {
      assert (a + b)[1..] == a[1..] + b;
      KeptConcat(a[1..], b, kind);
    }
  }

  lemma UnfencedTable(rows: seq<string>, rest: seq<OutLine>)
    ensures Unfenced([Fence] + Lines(rows) + [Fence] + rest) == rows + Unfenced(rest)
  {
    UnfencedConcat([Fence] + Lines(rows) + [Fence], rest);
    UnfencedConcat([Fence] + Lines(rows), [Fence]);
    UnfencedConcat([Fence], Lines(rows));
    UnfencedLines(rows);
    assert [Fence][1..] == [];
  }

  /** Without the added fences, the output is the input without its separators. */
  lemma {:induction false} OnlySeparatorsLost(ls: seq<string>, kind: string -> Kind)
    ensures Unfenced(Convert(ls, kind)) == Kept(ls, kind)
    decreases |ls|
  {
    if ls != [] {
      if !InTable(kind, ls[0]) {
        OnlySeparatorsLost(ls[1..], kind);
        UnfencedConcat([Line(ls[0])], Convert(ls[1..], kind));
        assert [Line(ls[0])][1..] == [];
      } else {
        var n := Run(ls, kind);
        assert ls == ls[..n] + ls[n..];
        KeptConcat(ls[..n], ls[n..], kind);
        OnlySeparatorsLost(ls[n..], kind);
        UnfencedTable(Kept(ls[..n], kind), Convert(ls[n..], kind));
      }
    }
  }

  lemma {:induction false} KeptRows(ls: seq<string>, kind: string -> Kind)
    requires forall k :: 0 <= k < |ls| ==> InTable(kind, ls[k])
    ensures forall k :: 0 <= k < |Kept(ls, kind)| ==> kind(Kept(ls, kind)[k]) == Row
  {
    if ls != [] {
      KeptRows(ls[1..], kind);
    }
  }

  lemma {:induction false} RowsInside(rows: seq<string>, rest: seq<OutLine>, kind: string -> Kind)
    requires forall k :: 0 <= k < |rows| ==> kind(rows[k]) == Row
    ensures WellFenced(Lines(rows) + rest, true, kind) == WellFenced(rest, true, kind)
  {
    if rows == [] {
      assert Lines(rows) + rest == rest;
    } else {
      assert (Lines(rows) + rest)[1..] == Lines(rows[1..]) + rest;
      RowsInside(rows[1..], rest, kind);
    }
  }

  lemma TableFenced(rows: seq<string>, rest: seq<OutLine>, kind: string -> Kind)
    requires forall k :: 0 <= k < |rows| ==> kind(rows[k]) == Row
    requires WellFenced(rest, false, kind)
    ensures WellFenced([Fence] + Lines(rows) + [Fence] + rest, false, kind)
  {
    var closing := [Fence] + rest;
    assert closing[1..] == rest;
    RowsInside(rows, closing, kind);
    var all := [Fence] + Lines(rows) + [Fence] + rest;
    assert all[1..] == Lines(rows) + closing;
  }

  /** Fences are paired and not nested, rows stand inside a pair and all other lines outside. */
  lemma {:induction false} TablesAreFenced(ls: seq<string>, kind: string -> Kind)
    ensures WellFenced(Convert(ls, kind), false, kind)
    decreases |ls|
  {
    if ls != [] {
      if !InTable(kind, ls[0]) {
        TablesAreFenced(ls[1..], kind);
        assert ([Line(ls[0])] + Convert(ls[1..], kind))[1..] == Convert(ls[1..], kind);
      } else {
        var n := Run(ls, kind);
        KeptRows(ls[..n], kind);
        TablesAreFenced(ls[n..], kind);
        TableFenced(Kept(ls[..n], kind), Convert(ls[n..], kind), kind);
      }
    }
  }

  // ---- how many fences ----

  function FenceCount(out: seq<OutLine>): nat {
    if out == [] then 0 else (if out[0].Fence? then 1 else 0) + FenceCount(out[1..])
  }

  /** The number of tables: table lines whose next line is none, or is missing. */
  function Tables(ls: seq<string>, kind: string -> Kind): nat {
    if ls == [] then 0
    else (if InTable(kind, ls[0]) && (|ls| == 1 || !InTable(kind, ls[1])) then 1 else 0) + Tables(ls[1..], kind)
  }

  /** The text ends in separators with no row before them. */
  predicate BareEnd(ls: seq<string>, kind: string -> Kind)
    decreases |ls|
  {
    if ls == [] then false
    else if !InTable(kind, ls[0]) then BareEnd(ls[1..], kind)
    else
      var n := Run(ls, kind);
      if n == |ls| then Kept(ls, kind) == [] else BareEnd(ls[n..], kind)
  }

  lemma {:induction false} CountConcat(a: seq<OutLine>, b: seq<OutLine>)
    ensures FenceCount(a + b) == FenceCount(a) + FenceCount(b)
  {
    if a == [] {
      assert a + b == b;
    } else {
      assert (a + b)[1..] == a[1..] + b;
      CountConcat(a[1..], b);
    }
  }

  lemma {:induction false} NoFences(ls: seq<string>)
    ensures FenceCount(Lines(ls)) == 0
  {
    if ls != [] {
      assert Lines(ls)[1..] == Lines(ls[1..]);
      NoFences(ls[1..]);
    }
  }

  lemma TableCount(rows: seq<string>, rest: seq<OutLine>)
    ensures FenceCount([Fence] + Lines(rows) + [Fence] + rest) == 2 + FenceCount(rest)
  {
    CountConcat([Fence] + Lines(rows) + [Fence], rest);
    CountConcat([Fence] + Lines(rows), [Fence]);
    CountConcat([Fence], Lines(rows));
    NoFences(rows);
    assert [Fence][1..] == [];
  }

  lemma {:induction false} OneTable(ls: seq<string>, kind: string -> Kind)
    requires ls != [] && InTable(kind, ls[0])
    ensures Tables(ls, kind) == 1 + Tables(ls[Run(ls, kind)..], kind)
    decreases |ls|
  {
    var n := Run(ls, kind);
    if n > 1 {
      OneTable(ls[1..], kind);
      assert ls[1..][n - 1..] == ls[n..];
    }
  }

  /** Each table gets one pair of fences, whether it has rows or not; only separators alone at the end get none. */
  lemma {:induction false} OnePairPerTable(ls: seq<string>, kind: string -> Kind)
    ensures FenceCount(Convert(ls, kind)) == 2 * Tables(ls, kind) - (if BareEnd(ls, kind) then 2 else 0)
    decreases |ls|
  {
    if ls != [] {
      if !InTable(kind, ls[0]) {
        OnePairPerTable(ls[1..], kind);
        CountConcat([Line(ls[0])], Convert(ls[1..], kind));
        assert [Line(ls[0])][1..] == [];
      } else {
        var n := Run(ls, kind);
        OneTable(ls, kind);
        OnePairPerTable(ls[n..], kind);
        TableCount(Kept(ls[..n], kind), Convert(ls[n..], kind));
        assert ls[..|ls|] == ls;
      }
    }
  }

  // ---- on texts ----

  function Rendered(out: seq<OutLine>): seq<string> {
    seq(|out|, k requires 0 <= k < |out| => if out[k].Fence? then "```" else out[k].text)
  }

  function JoinLines(ls: seq<string>): string {
    if ls == [] then "" else Join(ls, "\n")
  }

  function ConvertText(text: string, kind: string -> Kind): string {
    JoinLines(Rendered(Convert(Split(text, "\n"), kind)))
  }

  lemma {:induction false} NoTables(ls: seq<string>, kind: string -> Kind)
    requires forall k :: 0 <= k < |ls| ==> !InTable(kind, ls[k])
    ensures Convert(ls, kind) == Lines(ls)
  {
    if ls != [] {
      NoTables(ls[1..], kind);
    }
  }

  /** A text without tables is not changed. */
  lemma TextWithoutTables(text: string, kind: string -> Kind)
    requires forall l <- Split(text, "\n") :: !InTable(kind, l)
    ensures ConvertText(text, kind) == text
  {
    var ls := Split(text, "\n");
    NoTables(ls, kind);
    assert Rendered(Lines(ls)) == ls;
    JoinSplit(text, "\n");
  }
}
