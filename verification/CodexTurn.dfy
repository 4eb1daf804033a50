/**
 Turns of a Codex connection (internal/provider/codex_appserver.go): the reader handles one
 notification line at a time while runTurn goes through its statements; both are interleaved.
 */
module CodexTurn {
  import opened Wrappers
  import opened CodexAnswer

  // ---- decoded notifications ----

  datatype LegacyMsg =
    | AgentMessage(text: string, phase: Phase)
    | TaskComplete
    | TurnAborted
    | OtherMsg

  datatype TurnStatus = Failed | AbortedStatus | OtherStatus   // cancelled, canceled, aborted, interrupted

  /** Requests by method; `thread` is the threadId parameter when it is a string. */
  datatype Note =
    | CodexEvent(msg: Option<LegacyMsg>)
    | TurnStarted
    | TurnCompleted(thread: Option<string>, turnID: string, status: TurnStatus, message: string)
    | ErrorNote(thread: Option<string>, willRetry: bool, message: string)
    | AgentItem(thread: Option<string>, text: string, phase: Phase)   // item/completed of an agentMessage
    | OtherItem                                                       // any other item/ method
    | OtherNote

  datatype Proto = Undecided | Raw | Legacy

  datatype Finished = Finished(aborted: bool)

  /** A completion put in a turn's channel; `failing` if the same line had just reported a failure. */
  datatype Delivery = Delivery(turn: nat, fin: Finished, failing: bool)

  /** The fields the reader and runTurn share. `turn` counts the turns; turnWait is the current turn's channel or nil. */
  datatype Conn = Conn(
    threadID: string,
    proto: Proto,
    completed: set<string>,
    answer: Answer,
    turnErr: string,
    turnSeen: bool,
    waiting: bool,              // turnWait != nil
    mail: Option<Finished>,     // the buffer of the channel in turnWait
    turn: nat,
    sent: seq<Delivery>,        // everything ever put in a turn's channel
    dropped: bool,              // a completion met a full channel
    errors: seq<string>,        // setTurnErr calls since turnErr was last cleared
    handled: seq<Proto>)        // how each handled event was dispatched

  const FAILED := "codex turn failed"

  function SetTurnErr(c: Conn, s: string): Conn {
    c.(turnErr := if c.turnErr == "" then s else c.turnErr, errors := c.errors + [s])
  }

  function Signal(c: Conn, fin: Finished, failing: bool): Conn {
    if c.turnSeen then c
    else if !c.waiting then c.(turnSeen := true)
    else if c.mail.Some? then c.(turnSeen := true, dropped := true)
    else c.(turnSeen := true, mail := Some(fin), sent := c.sent + [Delivery(c.turn, fin, failing)])
  }

  function RecordMsg(c: Conn, m: Message): Conn {
    c.(answer := Record(c.answer, m))
  }

  function HandleLegacy(c: Conn, m: LegacyMsg): Conn {
    match m
    case AgentMessage(t, ph) => if t == "" then c else RecordMsg(c, Message(t, ph))
    case TaskComplete => Signal(c, Finished(false), false)
    case TurnAborted => Signal(c, Finished(true), false)
    case OtherMsg => c
  }

  predicate ForeignThread(c: Conn, thread: Option<string>) {
    thread.Some? && c.threadID != "" && thread.value != c.threadID
  }

  function HandleRaw(c: Conn, n: Note): Conn {
    match n
    case TurnCompleted(th, id, st, em) =>
      if ForeignThread(c, th) then c
      else
        var c1 := if st.Failed? then SetTurnErr(c, if em == "" then FAILED else em) else c;
        if id != "" && id in c1.completed then c1
        else
          var c2 := if id != "" then c1.(completed := c1.completed + {id}) else c1;
          Signal(c2, Finished(st.AbortedStatus?), st.Failed?)
    case ErrorNote(th, retry, em) =>
      if ForeignThread(c, th) || em == "" || retry then c
      else Signal(SetTurnErr(c, em), Finished(false), true)
    case AgentItem(th, t, ph) =>
      if ForeignThread(c, th) then c
      else
        var c1 := RecordMsg(c, Message(t, ph));
        if ph.FinalAnswer? then Signal(c1, Finished(false), false) else c1
    case _ => c
  }

  predicate ItemOrTurn(n: Note) {
    n.TurnStarted? || n.TurnCompleted? || n.AgentItem? || n.OtherItem?
  }

  function Handle(c: Conn, n: Note): Conn {
    match n
    case CodexEvent(msg) =>
      var c1 := c.(proto := Legacy);
      if msg.Some? then HandleLegacy(c1.(handled := c.handled + [Legacy]), msg.value) else c1
    case _ =>
      if c.proto.Legacy? then c
      else
        var c1 := if c.proto.Undecided? && ItemOrTurn(n) then c.(proto := Raw) else c;
        if c1.proto.Raw? then HandleRaw(c1.(handled := c.handled + [Raw]), n) else c1
  }

  // ---- runTurn ----

  datatype Outcome = Text(s: string) | Aborted | TurnFailed(message: string) | RequestFailed | TimedOut

  /** The statement runTurn is about to execute. */
  datatype Pc =
    | Off
    | ClearErr
    | ClearCompleted
    | Install
    | ResetOutput
    | ResetFallback
    | ResetFinal
    | Request
    | Wait
    | ClearWait(fin: Finished)
    | Judge(fin: Finished)
    | ReadText
    | Back(out: Outcome)
  {
    predicate BeforeInstall() {
      Off? || ClearErr? || ClearCompleted? || Install?
    }

    /** turnWait is this turn's channel. */
    predicate Installed() {
      ResetOutput? || ResetFallback? || ResetFinal? || Request? || Wait? || ClearWait?
    }

    predicate Unanswered() {
      Installed() && !ClearWait?
    }
  }

  /** `late`: a completion was signalled between runTurn's first statement and the installation of its channel. */
  datatype State = State(c: Conn, pc: Pc, late: bool)

  datatype Event =
    | Line(n: Note)
    | Begin            // runTurn is called: turnSeen.Store(false)
    | Next             // the next statement, the request succeeding
    | RequestErr
    | Receive
    | CtxDone

  predicate Enabled(s: State, e: Event) {
    match e
    case Line(_) => true
    case Begin => s.pc.Off? || s.pc.Back?
    case Next => !s.pc.Off? && !s.pc.Back? && !s.pc.Wait?
    case RequestErr => s.pc.Request?
    case Receive => s.pc.Wait? && s.c.mail.Some?
    case CtxDone => s.pc.Wait?
  }

  function NextStep(s: State): State
    requires Enabled(s, Next)
  {
    match s.pc
    case ClearErr => s.(c := s.c.(turnErr := "", errors := []), pc := ClearCompleted)
    case ClearCompleted => s.(c := s.c.(completed := {}), pc := Install)
    case Install => s.(c := s.c.(waiting := true, mail := None), pc := ResetOutput, late := s.c.turnSeen)
    case ResetOutput => s.(c := s.c.(answer := s.c.answer.(output := "")), pc := ResetFallback)
    case ResetFallback => s.(c := s.c.(answer := s.c.answer.(fallback := "")), pc := ResetFinal)
    case ResetFinal => s.(c := s.c.(answer := s.c.answer.(sawFinal := false)), pc := Request)
    case Request => s.(pc := Wait)
    case ClearWait(f) => s.(c := s.c.(waiting := false), pc := Judge(f))
    case Judge(f) =>
      s.(pc := if f.aborted then Back(Aborted) else if s.c.turnErr != "" then Back(TurnFailed(s.c.turnErr)) else ReadText)
    case ReadText => s.(pc := Back(Text(Facing(s.c.answer))))
  }

  function Step(s: State, e: Event): State
    requires Enabled(s, e)
  {
    match e
    case Line(n) => s.(c := Handle(s.c, n))
    case Begin => s.(c := s.c.(turnSeen := false, turn := s.c.turn + 1, mail := None), pc := ClearErr, late := false)
    case Next => NextStep(s)
    case RequestErr => s.(c := s.c.(waiting := false, mail := None), pc := Back(RequestFailed))
    case Receive => s.(c := s.c.(mail := None), pc := ClearWait(s.c.mail.value))
    case CtxDone => s.(c := s.c.(waiting := false, mail := None), pc := Back(TimedOut))
  }

  predicate Valid(s: State, es: seq<Event>)
    decreases |es|
  {
    es == [] || (Enabled(s, es[0]) && Valid(Step(s, es[0]), es[1..]))
  }

  function Run(s: State, es: seq<Event>): State
    requires Valid(s, es)
    decreases |es|
  {
    if es == [] then s else Run(Step(s, es[0]), es[1..])
  }

  function Init(threadID: string): State {
    State(Conn(threadID, Undecided, {}, NOTHING, "", false, false, None, 0, [], false, [], []), Off, false)
  }
}
