/** What every line and every statement of runTurn keeps, and what a turn's caller can rely on. */
module CodexTurnInv {
  import opened Wrappers
  import opened CodexAnswer
  import opened CodexTurn

  /** Each turn's channel got at most one completion, and none before the current turn's turnSeen flag was set. */
  predicate FirstWins(c: Conn) {
    && (forall i, j :: 0 <= i < j < |c.sent| ==> c.sent[i].turn != c.sent[j].turn)
    && (forall i :: 0 <= i < |c.sent| ==> c.sent[i].turn <= c.turn)
    && (!c.turnSeen ==> forall i :: 0 <= i < |c.sent| ==> c.sent[i].turn != c.turn)
    && !c.dropped
    && (c.mail.Some? ==> c.turnSeen)
  }

  predicate Delivered(c: Conn, fin: Finished) {
    exists i :: 0 <= i < |c.sent| && c.sent[i].turn == c.turn && c.sent[i].fin == fin
  }

  predicate NothingDelivered(c: Conn) {
    forall i :: 0 <= i < |c.sent| ==> c.sent[i].turn != c.turn
  }

  /** Where the current turn's completion is. */
  predicate Mailbox(s: State) {
    && (s.c.waiting <==> s.pc.Installed())
    && (s.late ==> s.c.turnSeen)
    && (!s.pc.Unanswered() ==> s.c.mail.None?)
    && (s.c.mail.Some? ==> Delivered(s.c, s.c.mail.value))
    && (s.pc.Unanswered() ==> (s.c.mail.Some? <==> s.c.turnSeen && !s.late))
    && (s.pc.Unanswered() && s.c.mail.None? ==> NothingDelivered(s.c))
    && (s.pc.BeforeInstall() && !s.pc.Off? ==> NothingDelivered(s.c))
    && (s.pc.ClearWait? || s.pc.Judge? ==> Delivered(s.c, s.pc.fin))
    && (s.pc.ReadText? || (s.pc.Back? && s.pc.out.Text?) ==> Delivered(s.c, Finished(false)))
  }

  /** First error wins, and a failing completion leaves its error behind until the next turn clears it. */
  predicate Errors(c: Conn) {
    && (forall i :: 0 <= i < |c.errors| ==> c.errors[i] != "")
    && c.turnErr == (if c.errors == [] then "" else c.errors[0])
  }

  predicate FailingKept(s: State) {
    forall i :: 0 <= i < |s.c.sent| && s.c.sent[i].turn == s.c.turn && s.c.sent[i].failing ==>
      && !s.c.sent[i].fin.aborted
      && s.c.turnErr != ""
      && !s.pc.ReadText?
      && !(s.pc.Back? && s.pc.out.Text?)
  }

  /** Handled events are a raw run followed by a legacy run. */
  predicate Dispatch(c: Conn) {
    && (forall i :: 0 <= i < |c.handled| ==> !c.handled[i].Undecided?)
    && (forall i, j :: 0 <= i < j < |c.handled| && c.handled[i].Legacy? ==> c.handled[j].Legacy?)
    && (!c.proto.Legacy? ==> forall i :: 0 <= i < |c.handled| ==> c.handled[i].Raw?)
    && (c.proto.Undecided? ==> c.handled == [])
  }

  predicate Inv(s: State) {
    FirstWins(s.c) && Mailbox(s) && Errors(s.c) && FailingKept(s) && Dispatch(s.c)
  }

  lemma InitInv(threadID: string)
    ensures Inv(Init(threadID))
  {
  }

  // ---- the two primitives ----

  /** What one line may do to the connection, apart from the answer: record an error, set the flag, deliver once. */
  predicate Signalled(c: Conn, d: Conn) {
    && d.turn == c.turn && d.waiting == c.waiting && d.threadID == c.threadID
    && (d.errors == c.errors || (|d.errors| == |c.errors| + 1 && d.errors[..|c.errors|] == c.errors && d.errors[|c.errors|] != ""))
    && d.turnErr == (if c.turnErr == "" && |d.errors| > |c.errors| then d.errors[|c.errors|] else c.turnErr)
    && d.dropped == c.dropped
    && if c.turnSeen || !d.turnSeen then d.turnSeen == c.turnSeen && d.mail == c.mail && d.sent == c.sent
       else if !c.waiting then d.mail == c.mail && d.sent == c.sent
       else
         && d.mail.Some?
         && |d.sent| == |c.sent| + 1 && d.sent[..|c.sent|] == c.sent
         && d.sent[|c.sent|].turn == c.turn && d.sent[|c.sent|].fin == d.mail.value
         && (d.sent[|c.sent|].failing ==> |d.errors| > |c.errors| && !d.mail.value.aborted)
  }

  lemma ErrSignals(c: Conn, m: string)
    requires m != ""
    ensures Signalled(c, SetTurnErr(c, m))
  {
  }

  lemma ErrThenSignals(c: Conn, m: string, completed: set<string>)
    requires m != "" && (!c.turnSeen ==> c.mail.None?)
    ensures Signalled(c, Signal(SetTurnErr(c, m).(completed := completed), Finished(false), true))
  {
  }

  lemma FailedSignals(c: Conn, th: Option<string>, id: string, em: string)
    requires !c.turnSeen ==> c.mail.None?
    ensures Signalled(c, HandleRaw(c, TurnCompleted(th, id, Failed, em)))
  {
    if !ForeignThread(c, th) {
      var m := if em == "" then FAILED else em;
      ErrSignals(c, m);
      ErrThenSignals(c, m, if id == "" then c.completed else c.completed + {id});
      FailedIs(c, th, id, em, m);
    }
  }

  lemma FailedIs(c: Conn, th: Option<string>, id: string, em: string, m: string)
    requires !ForeignThread(c, th) && m == if em == "" then FAILED else em
    ensures HandleRaw(c, TurnCompleted(th, id, Failed, em)) ==
            if id != "" && id in c.completed then SetTurnErr(c, m)
            else Signal(SetTurnErr(c, m).(completed := if id == "" then c.completed else c.completed + {id}), Finished(false), true)
  {
  }

  lemma CompletedSignals(c: Conn, th: Option<string>, id: string, st: TurnStatus, em: string)
    requires (!c.turnSeen ==> c.mail.None?) && !st.Failed?
    ensures Signalled(c, HandleRaw(c, TurnCompleted(th, id, st, em)))
  {
  }

  lemma ErrorSignals(c: Conn, th: Option<string>, retry: bool, em: string)
    requires !c.turnSeen ==> c.mail.None?
    ensures Signalled(c, HandleRaw(c, ErrorNote(th, retry, em)))
  {
  }

  lemma RawSignals(c: Conn, n: Note)
    requires !c.turnSeen ==> c.mail.None?
    ensures Signalled(c, HandleRaw(c, n))
  {
    match n
    case TurnCompleted(th, id, Failed, em) => FailedSignals(c, th, id, em);
    case TurnCompleted(th, id, st, em) => CompletedSignals(c, th, id, st, em);
    case ErrorNote(th, retry, em) => ErrorSignals(c, th, retry, em);
    case _ =>
  }

  lemma RawKeepsMode(c: Conn, n: Note)
    ensures HandleRaw(c, n).handled == c.handled && HandleRaw(c, n).proto == c.proto
  {
    match n
    case TurnCompleted(th, id, st, em) => CompletedKeepsMode(c, th, id, st, em);
    case _ =>
  }

  lemma CompletedKeepsMode(c: Conn, th: Option<string>, id: string, st: TurnStatus, em: string)
    ensures var d := HandleRaw(c, TurnCompleted(th, id, st, em)); d.handled == c.handled && d.proto == c.proto
  {
  }

  lemma LegacySignals(c: Conn, m: LegacyMsg)
    requires !c.turnSeen ==> c.mail.None?
    ensures Signalled(c, HandleLegacy(c, m))
    ensures HandleLegacy(c, m).handled == c.handled && HandleLegacy(c, m).proto == c.proto
  {
  }

  lemma LineSignals(c: Conn, n: Note)
    requires !c.turnSeen ==> c.mail.None?
    ensures Signalled(c, Handle(c, n))
  {
    if n.CodexEvent? {
      LegacyLineSignals(c, n);
    } else {
      RawLineSignals(c, n);
    }
  }

  lemma LegacyLineSignals(c: Conn, n: Note)
    requires n.CodexEvent? && (!c.turnSeen ==> c.mail.None?)
    ensures Signalled(c, Handle(c, n))
  {
    if n.msg.Some? {
      LegacySignals(c.(proto := Legacy, handled := c.handled + [Legacy]), n.msg.value);
    }
  }

  lemma RawLineSignals(c: Conn, n: Note)
    requires !n.CodexEvent? && (!c.turnSeen ==> c.mail.None?)
    ensures Signalled(c, Handle(c, n))
  {
    RawSignals(c.(proto := Raw, handled := c.handled + [Raw]), n);
  }

  /** One more handled event, in the mode that is now in force. */
  lemma DispatchMore(c: Conn, d: Conn, p: Proto)
    requires Dispatch(c) && d.handled == c.handled + [p] && d.proto == p
    requires p.Legacy? || (p.Raw? && !c.proto.Legacy?)
    ensures Dispatch(d)
  {
  }

  lemma LineDispatch(c: Conn, n: Note)
    requires Dispatch(c) && (!c.turnSeen ==> c.mail.None?)
    ensures Dispatch(Handle(c, n))
  {
    if n.CodexEvent? {
      if n.msg.Some? {
        var c1 := c.(proto := Legacy, handled := c.handled + [Legacy]);
        LegacySignals(c1, n.msg.value);
        DispatchMore(c, Handle(c, n), Legacy);
      }
    } else if !c.proto.Legacy? && (c.proto.Raw? || ItemOrTurn(n)) {
      RawKeepsMode(c.(proto := Raw, handled := c.handled + [Raw]), n);
      DispatchMore(c, Handle(c, n), Raw);
    }
  }

  lemma SignalledKeeps(s: State, d: Conn)
    requires FirstWins(s.c) && Mailbox(s) && Errors(s.c) && FailingKept(s) && Signalled(s.c, d)
    ensures FirstWins(d) && Mailbox(s.(c := d)) && Errors(d) && FailingKept(s.(c := d))
  {
  }

  lemma LineKeeps(s: State, n: Note)
    requires Inv(s)
    ensures Inv(Step(s, Line(n)))
  {
    LineSignals(s.c, n);
    LineDispatch(s.c, n);
    SignalledKeeps(s, Handle(s.c, n));
  }

  lemma TurnStepFirstWins(s: State, e: Event)
    requires FirstWins(s.c) && Mailbox(s) && Enabled(s, e) && !e.Line?
    ensures FirstWins(Step(s, e).c)
  {
  }

  lemma TurnStepMailbox(s: State, e: Event)
    requires FirstWins(s.c) && Mailbox(s) && FailingKept(s) && Enabled(s, e) && !e.Line?
    ensures Mailbox(Step(s, e))
  {
    TurnStepSent(s, e);
  }

  /** runTurn's own statements deliver nothing; a new turn starts with nothing delivered. */
  lemma TurnStepSent(s: State, e: Event)
    requires FirstWins(s.c) && Enabled(s, e) && !e.Line?
    ensures e.Begin? ==> NothingDelivered(Step(s, e).c)
    ensures !e.Begin? ==> NothingDelivered(Step(s, e).c) == NothingDelivered(s.c)
    ensures !e.Begin? ==> forall f :: Delivered(Step(s, e).c, f) <==> Delivered(s.c, f)
  {
    assert Step(s, e).c.sent == s.c.sent;
    assert !e.Begin? ==> Step(s, e).c.turn == s.c.turn;
  }

  lemma TurnStepErrors(s: State, e: Event)
    requires FirstWins(s.c) && Mailbox(s) && Errors(s.c) && FailingKept(s) && Enabled(s, e) && !e.Line?
    ensures Errors(Step(s, e).c) && FailingKept(Step(s, e))
  {
  }

  lemma StepInv(s: State, e: Event)
    requires Inv(s) && Enabled(s, e)
    ensures Inv(Step(s, e))
  {
    if e.Line? {
      LineKeeps(s, e.n);
    } else {
      TurnStepFirstWins(s, e);
      TurnStepMailbox(s, e);
      TurnStepErrors(s, e);
    }
  }
}
