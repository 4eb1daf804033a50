/** The connection object of internal/provider/codex_appserver.go: the reader's handlers and runTurn's critical sections. */
module CodexConn {
  import opened Wrappers
  import opened CodexAnswer
  import opened CodexTurn
  import opened CodexTurnTheorems
  import Strings = Text

  function HandleAll(c: Conn, ns: seq<Note>): Conn
    decreases |ns|
  {
    if ns == [] then c else HandleAll(Handle(c, ns[0]), ns[1..])
  }

  function Lines(ns: seq<Note>): seq<Event> {
    seq(|ns|, i requires 0 <= i < |ns| => Line(ns[i]))
  }

  /** Lines and statements in turn. */
  function Opening(gaps: seq<seq<Note>>): seq<Event> {
    if gaps == [] then [] else Opening(gaps[..|gaps| - 1]) + (Lines(gaps[|gaps| - 1]) + [Next])
  }

  lemma OpeningMore(gaps: seq<seq<Note>>, i: nat)
    requires i < |gaps|
    ensures ([Begin] + Opening(gaps[..i])) + Lines(gaps[i]) + [Next] == [Begin] + Opening(gaps[..i + 1])
  {
    assert gaps[..i + 1][..i] == gaps[..i];
  }

  lemma RunGap(s: State, es: seq<Event>, t: State, gap: seq<Note>)
    requires Valid(s, es) && Run(s, es) == t && !t.pc.Off? && !t.pc.Back? && !t.pc.Wait?
    ensures Valid(s, es + Lines(gap) + [Next])
    ensures Run(s, es + Lines(gap) + [Next]) == Step(t.(c := HandleAll(t.c, gap)), Next)
  {
    LinesRun(t, gap);
    RunConcat(s, es, Lines(gap));
    var r := Extend(s, es + Lines(gap), t.(c := HandleAll(t.c, gap)), Next);
  }

  lemma {:induction false} LinesRun(s: State, ns: seq<Note>)
    ensures Valid(s, Lines(ns)) && Run(s, Lines(ns)) == s.(c := HandleAll(s.c, ns))
    decreases |ns|
  {
    if ns != [] {
      assert Lines(ns)[1..] == Lines(ns[1..]);
      LinesRun(Step(s, Line(ns[0])), ns[1..]);
    }
  }

  class Connection {
    const threadID: string
    var notificationProto: Proto
    var completedTurns: set<string>
    var output: string
    var agentMsgFallback: string
    var sawCodexFinalAnswer: bool
    var turnErr: string
    var turnSeen: bool
    var turnWait: bool                // non-nil
    var mailbox: Option<Finished>     // the buffer of the channel in turnWait
    ghost var turn: nat
    ghost var sent: seq<Delivery>
    ghost var dropped: bool
    ghost var errors: seq<string>
    ghost var handled: seq<Proto>

    constructor (threadID: string)
      ensures Value() == Init(threadID).c
    {
      this.threadID := threadID;
      notificationProto, completedTurns := Undecided, {};
      output, agentMsgFallback, sawCodexFinalAnswer := "", "", false;
      turnErr, turnSeen, turnWait, mailbox := "", false, false, None;
      turn, sent, dropped, errors, handled := 0, [], false, [], [];
    }

    ghost function Value(): Conn
      reads this
    {
      Conn(threadID, notificationProto, completedTurns, Answer(output, agentMsgFallback, sawCodexFinalAnswer),
           turnErr, turnSeen, turnWait, mailbox, turn, sent, dropped, errors, handled)
    }

    method SetTurnErr(s: string)
      modifies this
      ensures Value() == CodexTurn.SetTurnErr(old(Value()), s)
    {
      if turnErr == "" {
        turnErr := s;
      }
      errors := errors + [s];
    }

    method SignalTurn(fin: Finished, ghost failing: bool)
      modifies this
      ensures Value() == Signal(old(Value()), fin, failing)
    {
      if turnSeen {
        return;
      }
      turnSeen := true;
      if !turnWait {
        return;
      }
      if mailbox.None? {
        mailbox := Some(fin);
        sent := sent + [Delivery(turn, fin, failing)];
      } else {
        dropped := true;
      }
    }

    method RecordAgentMessage(text: string, phase: Phase)
      modifies this
      ensures Value() == RecordMsg(old(Value()), Message(text, phase))
    {
      if phase.FinalAnswer? {
        sawCodexFinalAnswer := true;
        output := "";
        if text != "" {
          output := text;
        }
        return;
      }
      if text == "" {
        return;
      }
      agentMsgFallback := text;
    }

    method SlackFacingText() returns (out: string)
      ensures out == Facing(Value().answer)
    {
      out := Strings.TrimSpace(output);
      if out == "" && !sawCodexFinalAnswer {
        var fb := Strings.TrimSpace(agentMsgFallback);
        if fb != "" {
          out := fb;
        }
      }
      if out == "" {
        out := PLACEHOLDER;
      }
    }

    method HandleLegacy(m: LegacyMsg)
      modifies this
      ensures Value() == CodexTurn.HandleLegacy(old(Value()), m)
      ensures (m.TaskComplete? || m.TurnAborted?) && !old(turnSeen) ==> turnSeen
      ensures (m.TaskComplete? || m.TurnAborted?) && !old(turnSeen) && turnWait && old(mailbox).None? ==>
                mailbox == Some(Finished(m.TurnAborted?))
    {
      match m
      case AgentMessage(t, ph) =>
        if t != "" {
          RecordAgentMessage(t, ph);
        }
      case TaskComplete => SignalTurn(Finished(false), false);
      case TurnAborted => SignalTurn(Finished(true), false);
      case OtherMsg =>
    }

    method OnTurnCompleted(turnID: string, status: TurnStatus, message: string)
      modifies this
      ensures Value() == CodexTurn.HandleRaw(old(Value()), TurnCompleted(None, turnID, status, message))
    {
      if status.Failed? {
        SetTurnErr(if message == "" then FAILED else message);
      }
      if turnID != "" {
        if turnID in completedTurns {
          return;
        }
        completedTurns := completedTurns + {turnID};
      }
      SignalTurn(Finished(status.AbortedStatus?), status.Failed?);
    }

    method HandleRaw(n: Note)
      modifies this
      ensures Value() == CodexTurn.HandleRaw(old(Value()), n)
    {
      match n
      case TurnCompleted(th, id, st, em) =>
        if !(th.Some? && threadID != "" && th.value != threadID) {
          OnTurnCompleted(id, st, em);
        }
      case ErrorNote(th, willRetry, em) =>
        if !(th.Some? && threadID != "" && th.value != threadID) {
          if em != "" && !willRetry {
            SetTurnErr(em);
            SignalTurn(Finished(false), true);
          }
        }
      case AgentItem(th, tx, ph) =>
        if !(th.Some? && threadID != "" && th.value != threadID) {
          RecordAgentMessage(tx, ph);
          if ph.FinalAnswer? {
            SignalTurn(Finished(false), false);
          }
        }
      case _ =>
    }

    method HandleNotification(n: Note)
      modifies this
      ensures Value() == Handle(old(Value()), n)
    {
      if n.CodexEvent? {
        notificationProto := Legacy;
        if n.msg.Some? {
          handled := handled + [Legacy];
          HandleLegacy(n.msg.value);
        }
        return;
      }
      if !notificationProto.Legacy? {
        if notificationProto.Undecided? && ItemOrTurn(n) {
          notificationProto := Raw;
        }
        if notificationProto.Raw? {
          handled := handled + [Raw];
          HandleRaw(n);
        }
      }
    }

    /** runTurn's first statement. The reader may handle a line before and after each of its statements. */
    method BeginTurn(ghost s: State)
      requires s.c == Value() && (s.pc.Off? || s.pc.Back?)
      modifies this
      ensures Value() == Step(s, Begin).c
    {
      turnSeen := false;
      turn, mailbox := turn + 1, None;
    }

    /** One of the statements from there to the request. */
    method Prepare(ghost s: State, pc: Pc)
      requires s.c == Value() && s.pc == pc
      requires pc in {ClearErr, ClearCompleted, Install, ResetOutput, ResetFallback, ResetFinal}
      modifies this
      ensures Value() == Step(s, Next).c
    {
      match pc
      case ClearErr => turnErr, errors := "", [];
      case ClearCompleted => completedTurns := {};
      case Install => turnWait, mailbox := true, None;
      case ResetOutput => output := "";
      case ResetFallback => agentMsgFallback := "";
      case ResetFinal => sawCodexFinalAnswer := false;
    }

    /** The reader between two statements: any lines, one after the other. */
    method HandleLines(ns: seq<Note>)
      modifies this
      ensures Value() == HandleAll(old(Value()), ns)
    {
      for i := 0 to |ns|
        invariant HandleAll(Value(), ns[i..]) == HandleAll(old(Value()), ns)
      {
        assert ns[i..][1..] == ns[i + 1..];
        HandleNotification(ns[i]);
      }
    }

    method PrepareAfter(gap: seq<Note>, ghost s: State, pc: Pc)
      requires s.c == Value() && s.pc == pc
      requires pc in {ClearErr, ClearCompleted, Install, ResetOutput, ResetFallback, ResetFinal}
      modifies this
      ensures Value() == Step(s.(c := HandleAll(s.c, gap)), Next).c
    {
      HandleLines(gap);
      Prepare(s.(c := HandleAll(s.c, gap)), pc);
    }

    /** runTurn up to its request, with lines handled before each statement: the object goes where the machine goes. */
    method OpenTurn(gaps: seq<seq<Note>>, ghost s: State)
      requires |gaps| == 6 && s.c == Value() && (s.pc.Off? || s.pc.Back?)
      modifies this
      ensures var es := [Begin] + Opening(gaps);
              && Valid(s, es) && Run(s, es).pc.Request? && Value() == Run(s, es).c
    {
      var pcs := [ClearErr, ClearCompleted, Install, ResetOutput, ResetFallback, ResetFinal];
      ghost var es, t := [Begin], Step(s, Begin);
      BeginTurn(s);
      One(s, Begin);
      assert [Begin] + Opening(gaps[..0]) == [Begin];
      for i := 0 to 6
        invariant Valid(s, es) && Run(s, es) == t && t.c == Value()
        invariant t.pc == if i < 6 then pcs[i] else Request
        invariant es == [Begin] + Opening(gaps[..i])
      {
        PrepareAfter(gaps[i], t, pcs[i]);
        RunGap(s, es, t, gaps[i]);
        t := Step(t.(c := HandleAll(t.c, gaps[i])), Next);
        es := es + Lines(gaps[i]) + [Next];
        OpeningMore(gaps, i);
      }
      assert gaps[..6] == gaps;
    }

    /** runTurn after its channel delivered: clear the channel, then judge. */
    method ConcludeTurn(fin: Finished, ghost s: State) returns (out: Outcome)
      requires s.c == Value() && s.pc == ClearWait(fin)
      modifies this
      ensures Value() == Step(s, Next).c
      ensures var j := Step(Step(s, Next), Next);
              if j.pc.ReadText? then out == Outcome.Text(Facing(Value().answer)) else j.pc == Back(out)
    {
      turnWait := false;
      if fin.aborted {
        return Aborted;
      }
      if turnErr != "" {
        return TurnFailed(turnErr);
      }
      var t := SlackFacingText();
      out := Outcome.Text(t);
    }
  }
}
