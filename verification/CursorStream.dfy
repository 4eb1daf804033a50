/** The fold of readCursorStreamJSON in internal/provider/cursor_stream.go over lines that are decoded already. */
module CursorStream {
  import opened Text
  import opened Wrappers

  /** What a line says about the end of the run. */
  datatype Terminal = Nothing | Finished(text: string, session: string) | Failed(reason: string)

  datatype Line = Line(assistant: string, terminal: Terminal)

  datatype Error = Reported(reason: string) | Scan(reason: string) | NoResult

  datatype Outcome = Outcome(result: Result<(string, string), Error>, assistant: string)

  predicate IsSegment(l: Line) { l.assistant != "" }
  predicate IsResult(l: Line) { l.terminal.Finished? }
  predicate NamesSession(l: Line) { l.terminal.Finished? && l.terminal.session != "" }
  predicate IsFailure(l: Line) { l.terminal.Failed? }

  /** The last line with a property, or -1. */
  function Last(ls: seq<Line>, p: Line -> bool): (r: int)
    ensures -1 <= r < |ls|
    ensures r >= 0 ==> p(ls[r])
    ensures forall k :: r < k < |ls| ==> !p(ls[k])
  {
    if ls == [] then -1
    else if p(ls[|ls| - 1]) then |ls| - 1
    else Last(ls[..|ls| - 1], p)
  }

  function Joined(ls: seq<Line>): string {
    if ls == [] then "" else Joined(ls[..|ls| - 1]) + ls[|ls| - 1].assistant
  }

  /** The assistant text read is the lines' text in order. */
  lemma {:induction false} JoinedConcat(ls: seq<Line>, ms: seq<Line>)
    ensures Joined(ls + ms) == Joined(ls) + Joined(ms)
    ensures |ms| == 1 ==> Joined(ms) == ms[0].assistant
    decreases |ms|
  {
    if ms == [] {
      assert ls + ms == ls;
    } else {
      var n := |ms| - 1;
      assert (ls + ms)[..|ls| + n] == ls + ms[..n];
      JoinedConcat(ls, ms[..n]);
      assert |ms| == 1 ==> ms[..n] == [] && "" + ms[0].assistant == ms[0].assistant;
    }
  }

  lemma LastPush(ls: seq<Line>, l: Line, p: Line -> bool)
    ensures Last(ls + [l], p) == if p(l) then |ls| else Last(ls, p)
  {
    assert (ls + [l])[..|ls|] == ls;
  }

  function SegmentAt(ls: seq<Line>, i: int): string
    requires -1 <= i < |ls|
  {
    if i < 0 then "" else ls[i].assistant
  }

  function ResultAt(ls: seq<Line>, i: int): string
    requires -1 <= i < |ls|
  {
    if i >= 0 && ls[i].terminal.Finished? then ls[i].terminal.text else ""
  }

  function SessionAt(ls: seq<Line>, i: int): string
    requires -1 <= i < |ls|
  {
    if i >= 0 && ls[i].terminal.Finished? then ls[i].terminal.session else ""
  }

  /** The reply: the last segment of the assistant unless it is blank, otherwise the text of the last result. */
  function Reply(ls: seq<Line>): string {
    var segment := SegmentAt(ls, Last(ls, IsSegment));
    if TrimSpace(segment) != "" then segment else ResultAt(ls, Last(ls, IsResult))
  }

  predicate NoFailure(ls: seq<Line>) {
    forall k :: 0 <= k < |ls| ==> !IsFailure(ls[k])
  }

  /** How many lines are read: all, or up to the first failure. */
  function Read(ls: seq<Line>): (n: nat)
    ensures n <= |ls|
    ensures forall k :: 0 <= k < n - 1 ==> !IsFailure(ls[k])
    ensures n < |ls| ==> n > 0 && IsFailure(ls[n - 1])
  {
    if ls == [] then 0
    else if IsFailure(ls[0]) then 1
    else 1 + Read(ls[1..])
  }

  lemma {:induction false} ReadIs(ls: seq<Line>, i: nat)
    requires i < |ls| && IsFailure(ls[i]) && NoFailure(ls[..i])
    ensures Read(ls) == i + 1
    decreases i
  {
    if i > 0 {
      assert ls[0] == ls[..i][0] && ls[1..][..i - 1] == ls[..i][1..];
      ReadIs(ls[1..], i - 1);
    }
  }

  lemma {:induction false} ReadAll(ls: seq<Line>)
    requires NoFailure(ls)
    ensures Read(ls) == |ls|
  {
    if ls != [] {
      ReadAll(ls[1..]);
    }
  }

  /** The loop's variables after some lines. */
  predicate Folded(ls: seq<Line>, sawResult: bool, asst: string, lastAssistant: string, finalText: string, session: string) {
    && asst == Joined(ls)
    && lastAssistant == SegmentAt(ls, Last(ls, IsSegment))
    && (sawResult <==> Last(ls, IsResult) >= 0)
    && finalText == ResultAt(ls, Last(ls, IsResult))
    && session == SessionAt(ls, Last(ls, NamesSession))
  }

  lemma FoldStep(ls: seq<Line>, l: Line, sawResult: bool, asst: string, lastAssistant: string, finalText: string, session: string)
    requires Folded(ls, sawResult, asst, lastAssistant, finalText, session)
    ensures Folded(ls + [l], sawResult || IsResult(l), asst + l.assistant, if IsSegment(l) then l.assistant else lastAssistant,
                   if IsResult(l) then l.terminal.text else finalText, if NamesSession(l) then l.terminal.session else session)
  {
    assert (ls + [l])[..|ls|] == ls;
    LastPush(ls, l, IsSegment);
    LastPush(ls, l, IsResult);
    LastPush(ls, l, NamesSession);
  }

  /** Each outcome says what was in the stream. */
  predicate Justified(r: Result<(string, string), Error>, ls: seq<Line>, scanError: Option<string>) {
    match r
    case Ok((text, session)) =>
      && NoFailure(ls) && scanError.None? && Last(ls, IsResult) >= 0
      && text == Reply(ls) && session == SessionAt(ls, Last(ls, NamesSession))
    case Err(Reported(reason)) => Read(ls) > 0 && ls[Read(ls) - 1].terminal == Failed(reason)
    case Err(Scan(reason)) => NoFailure(ls) && scanError == Some(reason)
    case Err(NoResult) => NoFailure(ls) && scanError.None? && Last(ls, IsResult) < 0
  }

  lemma FoldAt(ls: seq<Line>, i: nat, sawResult: bool, asst: string, lastAssistant: string, finalText: string, session: string)
    requires i < |ls| && NoFailure(ls[..i]) && Folded(ls[..i], sawResult, asst, lastAssistant, finalText, session)
    ensures var l := ls[i];
            Folded(ls[..i + 1], sawResult || IsResult(l), asst + l.assistant, if IsSegment(l) then l.assistant else lastAssistant,
                   if IsResult(l) then l.terminal.text else finalText, if NamesSession(l) then l.terminal.session else session)
    ensures !IsFailure(ls[i]) ==> NoFailure(ls[..i + 1])
  {
    assert ls[..i + 1] == ls[..i] + [ls[i]];
    FoldStep(ls[..i], ls[i], sawResult, asst, lastAssistant, finalText, session);
  }

  lemma FailsAt(ls: seq<Line>, i: nat, reason: string)
    requires i < |ls| && NoFailure(ls[..i]) && ls[i].terminal == Failed(reason)
    ensures Read(ls) == i + 1 && forall e :: Justified(Err(Reported(reason)), ls, e)
  {
    ReadIs(ls, i);
  }

  method ReadStream(ls: seq<Line>, scanError: Option<string>) returns (o: Outcome)
    ensures o.assistant == Joined(ls[..Read(ls)])
    ensures Justified(o.result, ls, scanError)
  {
    var sawResult, asst, lastAssistant, finalText, session := false, "", "", "", "";
    assert ls[..0] == [];
    for i := 0 to |ls|
      invariant NoFailure(ls[..i])
      invariant Folded(ls[..i], sawResult, asst, lastAssistant, finalText, session)
    {
      var l := ls[i];
      FoldAt(ls, i, sawResult, asst, lastAssistant, finalText, session);
      asst := asst + l.assistant;
      if l.assistant != "" {
        lastAssistant := l.assistant;
      }
      match l.terminal
      case Failed(reason) =>
        FailsAt(ls, i, reason);
        return Outcome(Err(Reported(reason)), asst);
      case Finished(text, sid) =>
        sawResult := true;
        finalText := text;
        if sid != "" {
          session := sid;
        }
      case Nothing =>
    }
    assert ls[..|ls|] == ls;
    ReadAll(ls);
    AtTheEnd(ls, scanError, sawResult, asst, lastAssistant, finalText, session);
    if scanError.Some? {
      return Outcome(Err(Scan(scanError.value)), asst);
    }
    if !sawResult {
      return Outcome(Err(NoResult), asst);
    }
    if TrimSpace(lastAssistant) != "" {
      finalText := lastAssistant;
    }
    o := Outcome(Ok((finalText, session)), asst);
  }

  lemma AtTheEnd(ls: seq<Line>, scanError: Option<string>, sawResult: bool, asst: string, lastAssistant: string,
                 finalText: string, session: string)
    requires NoFailure(ls) && Folded(ls, sawResult, asst, lastAssistant, finalText, session)
    ensures scanError.Some? ==> Justified(Err(Scan(scanError.value)), ls, scanError)
    ensures scanError.None? && !sawResult ==> Justified(Err(NoResult), ls, scanError)
    ensures scanError.None? && sawResult ==>
              Justified(Ok((if TrimSpace(lastAssistant) != "" then lastAssistant else finalText, session)), ls, scanError)
  {
  }

  /** The reply, line by line: the last line with assistant text unless that is blank, else the last result line's text. */
  lemma ReplyIs(ls: seq<Line>, i: int, r: int)
    requires -1 <= i < |ls| && (i >= 0 ==> ls[i].assistant != "") && forall k :: i < k < |ls| ==> ls[k].assistant == ""
    requires -1 <= r < |ls| && (r >= 0 ==> ls[r].terminal.Finished?) && forall k :: r < k < |ls| ==> !ls[k].terminal.Finished?
    ensures Reply(ls) ==
            if i >= 0 && TrimSpace(ls[i].assistant) != "" then ls[i].assistant
            else if r >= 0 then ls[r].terminal.text else ""
  {
    assert Last(ls, IsSegment) == i && Last(ls, IsResult) == r;
  }

  /** The session id is that of the last result line that names one. */
  lemma SessionIs(ls: seq<Line>, i: int)
    requires -1 <= i < |ls| && (i >= 0 ==> ls[i].terminal.Finished? && ls[i].terminal.session != "")
    requires forall k :: i < k < |ls| ==> !(ls[k].terminal.Finished? && ls[k].terminal.session != "")
    ensures SessionAt(ls, Last(ls, NamesSession)) == if i >= 0 then ls[i].terminal.session else ""
  {
    assert Last(ls, NamesSession) == i;
  }

  /** A stream justifies one outcome only: the first failing line's, else the scanner's, else that there is no result, else the reply. */
  lemma OneOutcome(r: Result<(string, string), Error>, t: Result<(string, string), Error>, ls: seq<Line>, scanError: Option<string>)
    requires Justified(r, ls, scanError) && Justified(t, ls, scanError)
    ensures r == t
    ensures var fails := exists k :: 0 <= k < |ls| && ls[k].terminal.Failed?;
            && (r.Err? && r.error.Reported? <==> fails)
            && (r.Err? && r.error.Scan? <==> !fails && scanError.Some?)
            && (r.Ok? <==> !fails && scanError.None? && exists k :: 0 <= k < |ls| && ls[k].terminal.Finished?)
  {
    if NoFailure(ls) {
      ReadAll(ls);
    }
  }

  /** The failure reported is that of the first failing line, and what was read up to it comes along. */
  lemma FirstFailure(ls: seq<Line>, i: nat, reason: string)
    requires i < |ls| && ls[i].terminal == Failed(reason) && forall k :: 0 <= k < i ==> !ls[k].terminal.Failed?
    ensures Read(ls) == i + 1 && Justified(Err(Reported(reason)), ls, None)
  {
    FailsAt(ls, i, reason);
  }

  /** A blank last segment hides earlier ones: the reply is then the result's own text. */
  lemma BlankSegmentFallsBack(ls: seq<Line>, i: nat)
    requires i < |ls| && IsSegment(ls[i]) && TrimSpace(ls[i].assistant) == ""
    requires forall k :: i < k < |ls| ==> !IsSegment(ls[k])
    ensures Reply(ls) == ResultAt(ls, Last(ls, IsResult))
  {
    assert Last(ls, IsSegment) == i;
  }
}
