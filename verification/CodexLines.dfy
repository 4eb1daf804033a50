/** Line by line: what each kind of notification does to a turn, and what the turn then returns. */
module CodexLines {
  import opened Wrappers
  import opened CodexAnswer
  import opened CodexTurn
  import opened CodexTurnInv
  import opened CodexTurnTheorems

  // ---- which line completes a turn, and how ----

  /** The line names another thread than the connection's. */
  predicate Elsewhere(c: Conn, th: Option<string>) {
    th.Some? && c.threadID != "" && th.value != c.threadID
  }

  /** Nothing has been signalled for the current turn. */
  predicate Open(c: Conn) {
    !c.turnSeen && c.mail.None?
  }

  /** The line completes the turn exactly under this condition, in this way; a turn without a channel only has its flag set. */
  predicate Completes(c: Conn, n: Note, condition: bool, fin: Finished) {
    var d := Handle(c, n);
    && (d.turnSeen <==> condition)
    && d.mail == if condition && c.waiting then Some(fin) else None
  }

  /** task_complete completes the turn, whatever the mode. */
  lemma TaskCompletes(c: Conn)
    requires Open(c)
    ensures Completes(c, CodexEvent(Some(TaskComplete)), true, Finished(false))
  {
  }

  /** turn_aborted aborts it. */
  lemma AbortCompletes(c: Conn)
    requires Open(c)
    ensures Completes(c, CodexEvent(Some(TurnAborted)), true, Finished(true))
  {
  }

  lemma CompletedCompletesIff(c: Conn, th: Option<string>, id: string, st: TurnStatus, em: string)
    requires Open(c)
    ensures Completes(c, TurnCompleted(th, id, st, em),
                      !c.proto.Legacy? && !Elsewhere(c, th) && (id == "" || id !in c.completed),
                      Finished(st.AbortedStatus?))
  {
  }

  /** An error line counts only once the mode is raw, and does not set it. */
  lemma ErrorCompletesIff(c: Conn, th: Option<string>, retry: bool, em: string)
    requires Open(c)
    ensures Completes(c, ErrorNote(th, retry, em), c.proto.Raw? && !Elsewhere(c, th) && em != "" && !retry, Finished(false))
  {
  }

  lemma AnswerCompletesIff(c: Conn, th: Option<string>, text: string, ph: Phase)
    requires Open(c)
    ensures Completes(c, AgentItem(th, text, ph), !c.proto.Legacy? && !Elsewhere(c, th) && ph.FinalAnswer?, Finished(false))
  {
  }

  /** No other line completes a turn. */
  lemma OthersDoNotComplete(c: Conn, n: Note)
    requires Open(c)
    requires n.TurnStarted? || n.OtherItem? || n.OtherNote?
             || (n.CodexEvent? && (n.msg.None? || n.msg.value.OtherMsg? || n.msg.value.AgentMessage?))
    ensures Completes(c, n, false, Finished(false))
  {
  }

  /** Once the flag is set, no line delivers anything. */
  lemma SeenIsFinal(c: Conn, n: Note)
    requires c.turnSeen
    ensures Handle(c, n).turnSeen && Handle(c, n).mail == c.mail && Handle(c, n).sent == c.sent
  {
    LineSignals(c, n);
  }

  // ---- what else a line does ----

  /** The errors a line reports: a failed turn's, even of a turn completed before, and a final error's. */
  lemma LineErrors(c: Conn, n: Note)
    ensures Handle(c, n).errors ==
            c.errors + match n
                       case TurnCompleted(th, _, st, em) =>
                         if c.proto.Legacy? || Elsewhere(c, th) || !st.Failed? then []
                         else [if em == "" then "codex turn failed" else em]
                       case ErrorNote(th, retry, em) =>
                         if c.proto.Raw? && !Elsewhere(c, th) && em != "" && !retry then [em] else []
                       case _ => []
  {
    assert c.errors + [] == c.errors;
    match n
    case TurnCompleted(th, id, st, em) => CompletedErrors(c, th, id, st, em);
    case _ =>
  }

  lemma CompletedErrors(c: Conn, th: Option<string>, id: string, st: TurnStatus, em: string)
    ensures Handle(c, TurnCompleted(th, id, st, em)).errors ==
            c.errors + if c.proto.Legacy? || Elsewhere(c, th) || !st.Failed? then []
                       else [if em == "" then "codex turn failed" else em]
  {
    assert c.errors + [] == c.errors;
  }

  /** The ids of completed turns that are remembered. */
  lemma LineIds(c: Conn, n: Note)
    ensures Handle(c, n).completed ==
            if n.TurnCompleted? && !c.proto.Legacy? && !Elsewhere(c, n.thread) && n.turnID != "" then c.completed + {n.turnID}
            else c.completed
  {
    match n
    case TurnCompleted(th, id, st, em) => CompletedIds(c, th, id, st, em);
    case _ =>
  }

  lemma CompletedIds(c: Conn, th: Option<string>, id: string, st: TurnStatus, em: string)
    ensures Handle(c, TurnCompleted(th, id, st, em)).completed ==
            if !c.proto.Legacy? && !Elsewhere(c, th) && id != "" then c.completed + {id} else c.completed
  {
    if id in c.completed {
      assert c.completed + {id} == c.completed;
    }
  }

  /** The dispatch mode: legacy from the first codex/event on, raw from the first turn or item line if that came before. */
  lemma LineMode(c: Conn, n: Note)
    ensures var d := Handle(c, n);
            && d.proto == (if n.CodexEvent? then Legacy
                           else if c.proto.Undecided? && (n.TurnStarted? || n.TurnCompleted? || n.AgentItem? || n.OtherItem?) then Raw
                           else c.proto)
            && d.threadID == c.threadID && d.turn == c.turn && d.waiting == c.waiting
  {
    if !n.CodexEvent? {
      RawKeepsMode(c.(proto := Raw, handled := c.handled + [Raw]), n);
      KeepsThread(c.(proto := Raw, handled := c.handled + [Raw]), n);
    } else if n.msg.Some? {
      LegacyKeeps(c.(proto := Legacy, handled := c.handled + [Legacy]), n.msg.value);
    }
  }

  lemma LegacyKeeps(c: Conn, m: LegacyMsg)
    ensures var d := HandleLegacy(c, m);
            d.proto == c.proto && d.threadID == c.threadID && d.turn == c.turn && d.waiting == c.waiting
  {
  }

  lemma KeepsThread(c: Conn, n: Note)
    ensures HandleRaw(c, n).threadID == c.threadID && HandleRaw(c, n).turn == c.turn && HandleRaw(c, n).waiting == c.waiting
  {
    match n
    case TurnCompleted(th, id, st, em) => CompletedKeepsThread(c, th, id, st, em);
    case _ =>
  }

  lemma CompletedKeepsThread(c: Conn, th: Option<string>, id: string, st: TurnStatus, em: string)
    ensures var d := HandleRaw(c, TurnCompleted(th, id, st, em));
            d.threadID == c.threadID && d.turn == c.turn && d.waiting == c.waiting
  {
  }

  // ---- what the turn returns ----

  /** The first error of the turn, an earlier one before this line's. */
  function FirstError(c: Conn, m: string): string {
    if c.turnErr != "" then c.turnErr else m
  }

  /** A waiting turn whose channel has a completion: receive it, clear the channel, judge, and read the text if there is any. */
  function Ending(s: State): seq<Event>
    requires s.c.mail.Some?
  {
    if s.c.mail.value.aborted || s.c.turnErr != "" then [Receive] + ([Next] + [Next])
    else [Receive] + ([Next] + ([Next] + [Next]))
  }

  lemma Ends(s: State)
    requires s.pc == Wait && s.c.mail.Some?
    ensures Valid(s, Ending(s))
    ensures Run(s, Ending(s)).pc ==
            Back(if s.c.mail.value.aborted then Aborted
                 else if s.c.turnErr != "" then TurnFailed(s.c.turnErr)
                 else Text(Facing(s.c.answer)))
  {
    var s1 := Step(s, Receive);
    One(s, Receive);
    if s.c.mail.value.aborted || s.c.turnErr != "" {
      TwoNext(s1);
      RunConcat(s, [Receive], [Next] + [Next]);
    } else {
      One(s1, Next);
      TwoNext(Step(s1, Next));
      RunConcat(s1, [Next], [Next] + [Next]);
      RunConcat(s, [Receive], [Next] + ([Next] + [Next]));
    }
  }

  lemma TwoNext(s: State)
    requires Enabled(s, Next) && Enabled(Step(s, Next), Next)
    ensures Valid(s, [Next] + [Next]) && Run(s, [Next] + [Next]) == Step(Step(s, Next), Next)
  {
    One(s, Next);
    One(Step(s, Next), Next);
    RunConcat(s, [Next], [Next]);
  }

  /** A turn that waits, with nothing signalled yet. */
  predicate Waits(s: State) {
    Inv(s) && s.pc == Wait && Open(s.c)
  }

  ghost predicate Returns(s: State, n: Note, out: Outcome) {
    var t := Step(s, Line(n));
    && t.c.mail.Some? && Valid(s, [Line(n)] + Ending(t))
    && Run(s, [Line(n)] + Ending(t)).pc == Back(out)
  }

  lemma LineThenEnds(s: State, n: Note)
    requires s.pc == Wait && Step(s, Line(n)).c.mail.Some?
    ensures var t := Step(s, Line(n));
            Returns(s, n, if t.c.mail.value.aborted then Aborted
                          else if t.c.turnErr != "" then TurnFailed(t.c.turnErr)
                          else Text(Facing(t.c.answer)))
  {
    var t := Step(s, Line(n));
    Ends(t);
    One(s, Line(n));
    RunConcat(s, [Line(n)], Ending(t));
  }

  /** The outcome of the turn that task_complete completes: an error reported before, else the text recorded so far. */
  lemma TaskOutcome(s: State)
    requires Waits(s)
    ensures Returns(s, CodexEvent(Some(TaskComplete)),
                    if s.c.turnErr != "" then TurnFailed(s.c.turnErr) else Text(Facing(s.c.answer)))
  {
    TaskCompletes(s.c);
    LineThenEnds(s, CodexEvent(Some(TaskComplete)));
  }

  lemma AbortOutcome(s: State)
    requires Waits(s)
    ensures Returns(s, CodexEvent(Some(TurnAborted)), Aborted)
  {
    AbortCompletes(s.c);
    LineThenEnds(s, CodexEvent(Some(TurnAborted)));
  }

  /** turn/completed: an aborted status aborts, a failed one fails with the first error, any other gives the text. */
  lemma CompletedOutcome(s: State, th: Option<string>, id: string, st: TurnStatus, em: string)
    requires Waits(s) && !s.c.proto.Legacy? && !Elsewhere(s.c, th) && (id == "" || id !in s.c.completed)
    ensures Returns(s, TurnCompleted(th, id, st, em),
                    match st
                    case AbortedStatus => Aborted
                    case Failed => TurnFailed(FirstError(s.c, if em == "" then "codex turn failed" else em))
                    case OtherStatus => if s.c.turnErr != "" then TurnFailed(s.c.turnErr) else Text(Facing(s.c.answer)))
  {
    CompletedCompletesIff(s.c, th, id, st, em);
    CompletedFields(s.c, th, id, st, em);
    LineThenEnds(s, TurnCompleted(th, id, st, em));
  }

  lemma CompletedFields(c: Conn, th: Option<string>, id: string, st: TurnStatus, em: string)
    requires !c.proto.Legacy? && !Elsewhere(c, th)
    ensures var d := Handle(c, TurnCompleted(th, id, st, em));
            && d.answer == c.answer
            && d.turnErr == if st.Failed? then FirstError(c, if em == "" then "codex turn failed" else em) else c.turnErr
  {
    var c1 := c.(proto := Raw, handled := c.handled + [Raw]);
    if st.Failed? {
      FailedIs(c1, th, id, em, if em == "" then FAILED else em);
      FailedHandled(c, th, id, em);
    } else {
      UnfailedFields(c, th, id, st, em);
    }
  }

  lemma FailedHandled(c: Conn, th: Option<string>, id: string, em: string)
    requires !c.proto.Legacy?
    ensures Handle(c, TurnCompleted(th, id, Failed, em)) ==
            HandleRaw(c.(proto := Raw, handled := c.handled + [Raw]), TurnCompleted(th, id, Failed, em))
  {
  }

  lemma UnfailedFields(c: Conn, th: Option<string>, id: string, st: TurnStatus, em: string)
    requires !st.Failed?
    ensures var d := Handle(c, TurnCompleted(th, id, st, em)); d.answer == c.answer && d.turnErr == c.turnErr
  {
  }

  /** A final error fails the turn, with the first error of the turn. */
  lemma ErrorOutcome(s: State, th: Option<string>, em: string)
    requires Waits(s) && s.c.proto.Raw? && !Elsewhere(s.c, th) && em != ""
    ensures Returns(s, ErrorNote(th, false, em), TurnFailed(FirstError(s.c, em)))
  {
    ErrorCompletesIff(s.c, th, false, em);
    LineThenEnds(s, ErrorNote(th, false, em));
  }

  /** A final answer ends the turn with its own text, unless an error was reported before. */
  lemma AnswerOutcome(s: State, th: Option<string>, text: string)
    requires Waits(s) && !s.c.proto.Legacy? && !Elsewhere(s.c, th)
    ensures Returns(s, AgentItem(th, text, FinalAnswer),
                    if s.c.turnErr != "" then TurnFailed(s.c.turnErr) else Text(OrPlaceholder(text)))
  {
    AnswerCompletesIff(s.c, th, text, FinalAnswer);
    assert Facing(Record(s.c.answer, Message(text, FinalAnswer))) == OrPlaceholder(text);
    LineThenEnds(s, AgentItem(th, text, FinalAnswer));
  }

  // ---- how a turn ends, over every run ----

  predicate AfterReceive(pc: Pc) {
    pc.ClearWait? || pc.Judge? || pc.ReadText?
  }

  lemma {:induction false} BackStays(s: State, es: seq<Event>)
    requires s.pc.Back? && Valid(s, es) && SameTurn(es)
    ensures Run(s, es).pc == s.pc && RequestErr !in es && CtxDone !in es && Receive !in es
    decreases |es|
  {
    if es != [] {
      assert es == [es[0]] + es[1..] && es[0] in es;
      BackStays(Step(s, es[0]), es[1..]);
    }
  }

  lemma {:induction false} EndsFrom(s: State, es: seq<Event>)
    requires !s.pc.Off? && !s.pc.Back? && Valid(s, es) && SameTurn(es) && Run(s, es).pc.Back?
    ensures var out := Run(s, es).pc.out;
            && (out.RequestFailed? <==> RequestErr in es)
            && (out.TimedOut? <==> CtxDone in es)
            && (out.Text? || out.Aborted? || out.TurnFailed? <==> AfterReceive(s.pc) || Receive in es)
    decreases |es|
  {
    var s' := Step(s, es[0]);
    assert es == [es[0]] + es[1..] && es[0] in es;
    EndStep(s, es[0]);
    if s'.pc.Back? {
      BackStays(s', es[1..]);
    } else {
      EndsFrom(s', es[1..]);
    }
  }

  /** The one event that ends a turn, and what it leaves open otherwise. */
  lemma EndStep(s: State, e: Event)
    requires !s.pc.Off? && !s.pc.Back? && Enabled(s, e) && !e.Begin?
    ensures var pc := Step(s, e).pc;
            if pc.Back? then
              && (pc.out.RequestFailed? <==> e.RequestErr?) && (pc.out.TimedOut? <==> e.CtxDone?)
              && (pc.out.Text? || pc.out.Aborted? || pc.out.TurnFailed? <==> AfterReceive(s.pc)) && !e.Receive?
              && (AfterReceive(s.pc) ==> !e.RequestErr? && !e.CtxDone?)
            else
              && !pc.Off? && !e.RequestErr? && !e.CtxDone? && (AfterReceive(pc) <==> AfterReceive(s.pc) || e.Receive?)
  {
  }

  /**
   A turn fails with its request exactly if the request failed, times out exactly if its context ended, and else
   has received its completion.
   */
  lemma TurnEnds(s: State, es: seq<Event>)
    requires (s.pc.Off? || s.pc.Back?) && Valid(Step(s, Begin), es) && SameTurn(es) && Run(Step(s, Begin), es).pc.Back?
    ensures var out := Run(Step(s, Begin), es).pc.out;
            && (out.RequestFailed? <==> RequestErr in es)
            && (out.TimedOut? <==> CtxDone in es)
            && (out.Text? || out.Aborted? || out.TurnFailed? <==> Receive in es)
  {
    EndsFrom(Step(s, Begin), es);
  }
}
