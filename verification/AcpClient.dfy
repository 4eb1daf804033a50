/**
 The JSON-RPC client of internal/acp/client.go: any number of Call goroutines, one reader and any
 number of ClosePending calls, interleaved at their critical sections and channel operations.
 */
module AcpClient {
  import opened Wrappers
  import opened Correlation

  /** A channel of capacity one. */
  datatype Chan = Chan(buf: Option<Response>, closed: bool)

  /** What the mutex and the channels protect. A channel is named by the call that made it. */
  datatype Shared = Shared(
    pending: map<int, nat>,
    chans: map<nat, Chan>,
    readErr: bool,
    panicked: bool,     // a send on a closed channel or a second close
    dropped: bool)      // the reader's non-blocking send took its default case

  function Register(s: Shared, id: int, c: nat): Shared {
    s.(pending := s.pending[id := c], chans := s.chans[c := Chan(None, false)])
  }

  function Delete(s: Shared, id: int): Shared {
    s.(pending := s.pending - {id})
  }

  function Deliver(s: Shared, c: nat, r: Response): Shared
    requires c in s.chans
  {
    if s.chans[c].closed then s.(panicked := true)
    else if s.chans[c].buf.Some? then s.(dropped := true)
    else s.(chans := s.chans[c := Chan(Some(r), false)])
  }

  /** Every entry's channel exists. */
  predicate Owned(s: Shared) {
    forall id <- s.pending :: s.pending[id] in s.chans
  }

  /** Two entries with one channel, or an entry whose channel is closed: closing all entries would panic. */
  predicate CloseFaults(s: Shared)
    requires Owned(s)
  {
    || (exists id <- s.pending :: s.chans[s.pending[id]].closed)
    || (exists id <- s.pending :: exists jd <- s.pending :: id != jd && s.pending[id] == s.pending[jd])
  }

  function CloseAll(s: Shared): Shared
    requires Owned(s)
  {
    s.(pending := map[],
       chans := map c <- s.chans :: if Listed(s.pending, c) then s.chans[c].(closed := true) else s.chans[c],
       panicked := s.panicked || CloseFaults(s))
  }

  datatype Return =
    | Value(r: Response)
    | ReadFailure(latched: bool)   // the closed channel was seen; the latched error if there is one
    | Refused                      // readErr was already set on entry
    | Cancelled
    | NotSent

  datatype Pc =
    | Fresh                      // id drawn, table not yet touched
    | Sending
    | Waiting
    | Got(r: Response)
    | Back(out: Return)

  datatype Reader = Scanning | Holding(c: nat, r: Response) | Stopped

  /** Call number c has drawn the id c + 1 from the atomic counter. */
  datatype State = State(sh: Shared, calls: seq<Pc>, reader: Reader)

  function Init(): State {
    State(Shared(map[], map[], false, false, false), [], Scanning)
  }

  function Id(c: nat): int {
    c + 1
  }

  datatype Event =
    | Begin
    | EncodeErr(c: nat)
    | Enter(c: nat)
    | SendOk(c: nat)
    | SendErr(c: nat)
    | CtxDone(c: nat)
    | Receive(c: nat)
    | Finish(c: nat)
    | Match(r: Response)
    | Put
    | ScanErr
    | ScanEof
    | ClosePending

  predicate At(s: State, c: nat, p: Pc) {
    c < |s.calls| && s.calls[c] == p
  }

  predicate Enabled(s: State, e: Event) {
    && Owned(s.sh)
    && match e
       case Begin | ClosePending => true
       case EncodeErr(c) => At(s, c, Fresh)
       case Enter(c) => At(s, c, Fresh)
       case SendOk(c) => At(s, c, Sending)
       case SendErr(c) => At(s, c, Sending)
       case CtxDone(c) => At(s, c, Waiting)
       case Receive(c) => At(s, c, Waiting) && c in s.sh.chans && (s.sh.chans[c].buf.Some? || s.sh.chans[c].closed)
       case Finish(c) => c < |s.calls| && s.calls[c].Got?
       case Match(_) | ScanErr | ScanEof => s.reader.Scanning?
       case Put => s.reader.Holding? && s.reader.c in s.sh.chans
  }

  function Move(s: State, c: nat, p: Pc): State
    requires c < |s.calls|
  {
    s.(calls := s.calls[c := p])
  }

  function Step(s: State, e: Event): State
    requires Enabled(s, e)
  {
    match e
    case Begin => s.(calls := s.calls + [Fresh])
    case EncodeErr(c) => Move(s, c, Back(NotSent))
    case Enter(c) =>
      if s.sh.readErr then Move(s, c, Back(Refused))
      else Move(s, c, Sending).(sh := Register(s.sh, Id(c), c))
    case SendOk(c) => Move(s, c, Waiting)
    case SendErr(c) => Move(s, c, Back(NotSent)).(sh := Delete(s.sh, Id(c)))
    case CtxDone(c) => Move(s, c, Back(Cancelled)).(sh := Delete(s.sh, Id(c)))
    case Receive(c) =>
      var ch := s.sh.chans[c];
      if ch.buf.Some? then
        Move(s, c, Got(ch.buf.value)).(sh := s.sh.(chans := s.sh.chans[c := ch.(buf := None)]))
      else
        Move(s, c, Back(ReadFailure(s.sh.readErr)))
    case Finish(c) => Move(s, c, Back(Value(s.calls[c].r))).(sh := Delete(s.sh, Id(c)))
    case Match(r) =>
      if r.id in s.sh.pending then s.(sh := Delete(s.sh, r.id), reader := Holding(s.sh.pending[r.id], r)) else s
    case Put => s.(sh := Deliver(s.sh, s.reader.c, s.reader.r), reader := Scanning)
    case ScanErr => s.(sh := CloseAll(s.sh.(readErr := true)), reader := Stopped)
    case ScanEof => s.(reader := Stopped)
    case ClosePending => s.(sh := CloseAll(s.sh))
  }

  // ---- invariant ----

  predicate HeldBy(s: State, c: nat) {
    s.reader.Holding? && s.reader.c == c
  }

  /** The call has taken its response out of its channel. */
  function Taken(p: Pc): Option<Response> {
    match p
    case Got(r) => Some(r)
    case Back(Value(r)) => Some(r)
    case _ => None
  }

  predicate Entered(p: Pc) {
    p.Sending? || p.Waiting? || p.Got? || (p.Back? && (p.out.Value? || p.out.ReadFailure? || p.out.Cancelled?))
  }

  /** The life of one call's channel: in the table, then with the reader, then filled, then emptied; or closed instead. */
  predicate CallInv(s: State, c: nat)
    requires c < |s.calls|
  {
    var p, inTable, held := s.calls[c], Id(c) in s.sh.pending, HeldBy(s, c);
    && (p.Fresh? ==> c !in s.sh.chans)
    && (Entered(p) ==> c in s.sh.chans)
    && (c !in s.sh.chans ==> !inTable && !held)
    && (c in s.sh.chans ==>
          var ch := s.sh.chans[c];
          && (inTable ==> !ch.closed && ch.buf.None? && !held && (p.Sending? || p.Waiting?))
          && (held ==> !ch.closed && ch.buf.None? && s.reader.r.id == Id(c))
          && (ch.buf.Some? ==> !ch.closed && ch.buf.value.id == Id(c))
          && (Taken(p).Some? ==> !inTable && !held && !ch.closed && ch.buf.None? && Taken(p).value.id == Id(c))
          && (p.Sending? || p.Waiting? ==> inTable || held || ch.closed || ch.buf.Some?)
          && (p.Back? && p.out.ReadFailure? ==> ch.closed))
  }

  predicate TableInv(s: State) {
    && (forall id <- s.sh.pending :: 0 < id <= |s.calls| && s.sh.pending[id] == id - 1)
    && (forall c <- s.sh.chans :: c < |s.calls|)
    && (s.reader.Holding? ==> s.reader.c < |s.calls|)
    && (s.sh.readErr ==> s.sh.pending == map[] && s.reader.Stopped?)
    && !s.sh.panicked
    && !s.sh.dropped
  }

  predicate Inv(s: State) {
    TableInv(s) && forall c :: 0 <= c < |s.calls| ==> CallInv(s, c)
  }

  lemma InTable(s: State, c: nat)
    requires TableInv(s)
    ensures Listed(s.sh.pending, c) <==> Id(c) in s.sh.pending
  {
    if Id(c) in s.sh.pending {
      assert s.sh.pending[Id(c)] == c;
    } else {
      forall id | id in s.sh.pending ensures s.sh.pending[id] != c {
        assert s.sh.pending[id] == id - 1;
      }
    }
  }

  lemma NoCloseFault(s: State)
    requires Inv(s)
    ensures Owned(s.sh) && !CloseFaults(s.sh)
  {
    forall c: nat | Listed(s.sh.pending, c) ensures c in s.sh.chans && !s.sh.chans[c].closed {
      InTable(s, c);
      assert CallInv(s, c);
    }
  }

  lemma StepTable(s: State, e: Event)
    requires Inv(s) && Enabled(s, e)
    ensures TableInv(Step(s, e))
  {
    NoCloseFault(s);
    if e.Put? {
      assert CallInv(s, s.reader.c);
    }
  }

  /** Only the call an event names (or the reader's channel, or all table entries) is touched. */
  lemma StepCall(s: State, e: Event, c: nat)
    requires Inv(s) && Enabled(s, e) && c < |Step(s, e).calls|
    ensures CallInv(Step(s, e), c)
  {
    InTable(s, c);
    if c < |s.calls| {
      assert CallInv(s, c);
      if e.Put? {
        assert CallInv(s, s.reader.c);
      }
    } else {
      assert c !in s.sh.chans && Id(c) !in s.sh.pending;
    }
  }

  lemma StepInv(s: State, e: Event)
    requires Inv(s) && Enabled(s, e)
    ensures Inv(Step(s, e))
  {
    StepTable(s, e);
    forall c | 0 <= c < |Step(s, e).calls| ensures CallInv(Step(s, e), c) {
      StepCall(s, e, c);
    }
  }

  ghost predicate Valid(s: State, es: seq<Event>) {
    ValidRun(s, es, Step)
  }

  function Run(s: State, es: seq<Event>): State
    requires Valid(s, es)
  {
    RunFrom(s, es, Step)
  }

  /** The client is a refinement of the abstract table. */
  lemma IsTable()
    ensures Refines(Step, Inv, Abs)
  {
    forall s, e | Inv(s) && Enabled(s, e) ensures Inv(Step(s, e)) && Next(Abs(s), Abs(Step(s, e))) {
      StepInv(s, e);
      StepRefines(s, e);
    }
  }

  lemma RunInv(s: State, es: seq<Event>)
    requires Inv(s) && Valid(s, es)
    ensures Inv(Run(s, es))
  {
    IsTable();
    RunKeeps(s, es, Step, Inv, Abs);
  }

  // ---- what callers and the reader get out of it ----

  /** The event that a caller's way out needs. */
  predicate Explains(es: seq<Event>, c: nat, p: Pc) {
    match p
    case Got(r) => Match(r) in es
    case Back(Value(r)) => Match(r) in es
    case Back(ReadFailure(latched)) => if latched then ScanErr in es else ClosePending in es || ScanErr in es
    case Back(Refused) => ScanErr in es
    case Back(Cancelled) => CtxDone(c) in es
    case Back(NotSent) => EncodeErr(c) in es || SendErr(c) in es
    case _ => true
  }

  predicate ChanExplained(es: seq<Event>, ch: Chan) {
    && (ch.buf.Some? ==> Match(ch.buf.value) in es)
    && (ch.closed ==> ClosePending in es || ScanErr in es)
  }

  /** Whatever callers, channels and the reader hold came from an event of the run. */
  predicate Explained(es: seq<Event>, s: State) {
    && (forall c :: 0 <= c < |s.calls| ==> Explains(es, c, s.calls[c]))
    && (forall c <- s.sh.chans :: ChanExplained(es, s.sh.chans[c]))
    && (s.reader.Holding? ==> Match(s.reader.r) in es)
    && (s.sh.readErr <==> ScanErr in es)
    && (s.reader.Stopped? <==> ScanErr in es || ScanEof in es)
  }

  lemma ExplainedLater(es: seq<Event>, e: Event, s: State)
    requires Explained(es, s)
    ensures forall c :: 0 <= c < |s.calls| ==> Explains(es + [e], c, s.calls[c])
    ensures forall c <- s.sh.chans :: ChanExplained(es + [e], s.sh.chans[c])
    ensures s.reader.Holding? ==> Match(s.reader.r) in es + [e]
  {
  }

  lemma StepExplained(es: seq<Event>, e: Event, s: State)
    requires Inv(s) && Explained(es, s) && Enabled(s, e)
    ensures Explained(es + [e], Step(s, e))
  {
    var fs, s' := es + [e], Step(s, e);
    ExplainedLater(es, e, s);
    assert e in fs;
    forall c | 0 <= c < |s'.calls| ensures Explains(fs, c, s'.calls[c]) {
      CallExplained(es, e, s, c);
    }
    forall c | c in s'.sh.chans ensures ChanExplained(fs, s'.sh.chans[c]) {
      ChannelExplained(es, e, s, c);
    }
  }

  lemma CallExplained(es: seq<Event>, e: Event, s: State, c: nat)
    requires Inv(s) && Explained(es, s) && Enabled(s, e) && c < |Step(s, e).calls|
    ensures Explains(es + [e], c, Step(s, e).calls[c])
  {
    ExplainedLater(es, e, s);
    assert e in es + [e];
    if e.Receive? {
      assert ChanExplained(es + [e], s.sh.chans[e.c]);
    }
  }

  lemma ChannelExplained(es: seq<Event>, e: Event, s: State, c: nat)
    requires Inv(s) && Explained(es, s) && Enabled(s, e) && c in Step(s, e).sh.chans
    ensures ChanExplained(es + [e], Step(s, e).sh.chans[c])
  {
    ExplainedLater(es, e, s);
    assert e in es + [e];
    NoCloseFault(s);
  }

  lemma {:induction false} RunExplained(before: seq<Event>, s: State, es: seq<Event>)
    requires Inv(s) && Explained(before, s) && Valid(s, es)
    ensures Explained(before + es, Run(s, es))
    decreases |es|
  {
    if es == [] {
      assert before + es == before;
    } else {
      StepInv(s, es[0]);
      StepExplained(before, es[0], s);
      RunExplained(before + [es[0]], Step(s, es[0]), es[1..]);
      assert before + es == before + [es[0]] + es[1..];
    }
  }

  /**
   No run sends on a closed channel, closes one twice or drops a response; the reader stops exactly at the end of
   its input or at a read error, and only the latter is latched; and every way out of a call has its cause: a
   returned response is the caller's own and was read, a failure or a refusal comes from a close or a read error,
   a cancellation from the caller's own context.
   */
  lemma SafeDelivery(es: seq<Event>, c: nat)
    requires Valid(Init(), es) && c < |Run(Init(), es).calls|
    ensures var s := Run(Init(), es);
            && !s.sh.panicked && !s.sh.dropped
            && Explains(es, c, s.calls[c])
            && (s.calls[c].Back? && s.calls[c].out.Value? ==> s.calls[c].out.r.id == Id(c))
            && (Id(c) in s.sh.pending ==> c in s.sh.chans && s.sh.chans[c] == Chan(None, false))
            && (s.sh.readErr <==> ScanErr in es)
            && (s.reader.Stopped? <==> ScanErr in es || ScanEof in es)
  {
    RunInv(Init(), es);
    RunExplained([], Init(), es);
    assert [] + es == es;
    assert CallInv(Run(Init(), es), c);
  }

  /** No lost wake-up: a waiting call is still in the table, or its answer is on the way, or it can go on. */
  lemma NoLostWakeup(es: seq<Event>, c: nat)
    requires Valid(Init(), es) && At(Run(Init(), es), c, Waiting)
    ensures var s := Run(Init(), es);
            Id(c) in s.sh.pending || (HeldBy(s, c) && Enabled(s, Put)) || Enabled(s, Receive(c))
  {
    var s := Run(Init(), es);
    RunInv(Init(), es);
    NoCloseFault(s);
    assert CallInv(s, c);
  }

  /** Once a read error is latched the table stays empty and every later call is refused. */
  lemma {:induction false} LatchIsPermanent(s: State, es: seq<Event>)
    requires Inv(s) && s.sh.readErr && Valid(s, es)
    ensures Run(s, es).sh.readErr && Run(s, es).sh.pending == map[]
    ensures forall c :: |s.calls| <= c < |Run(s, es).calls| ==>
                          Run(s, es).calls[c] in {Fresh, Back(NotSent), Back(Refused)}
    decreases |es|
  {
    LatchedRun(s, es, |s.calls|);
  }

  predicate LaterRefused(s: State, n: nat) {
    forall c :: n <= c < |s.calls| ==> s.calls[c] in {Fresh, Back(NotSent), Back(Refused)}
  }

  lemma {:induction false} LatchedRun(s: State, es: seq<Event>, n: nat)
    requires Inv(s) && s.sh.readErr && Valid(s, es) && LaterRefused(s, n)
    ensures Run(s, es).sh.readErr && Run(s, es).sh.pending == map[] && LaterRefused(Run(s, es), n)
    decreases |es|
  {
    if es != [] {
      StepInv(s, es[0]);
      LatchedRun(Step(s, es[0]), es[1..], n);
    }
  }

  /** A call that entered and has left the table never comes back into it. */
  lemma {:induction false} NeverListedAgain(s: State, es: seq<Event>, c: nat)
    requires Inv(s) && Valid(s, es) && c < |s.calls| && c in s.sh.chans && Id(c) !in s.sh.pending
    ensures Id(c) !in Run(s, es).sh.pending
    decreases |es|
  {
    if es != [] {
      assert CallInv(s, c);
      StepInv(s, es[0]);
      NeverListedAgain(Step(s, es[0]), es[1..], c);
    }
  }

  /** One event with the reader gone: only a close or the end of its context takes a waiting call out of the table. */
  lemma WaitingStep(s: State, e: Event, c: nat)
    requires Inv(s) && Enabled(s, e) && s.reader.Stopped? && At(s, c, Waiting) && Id(c) in s.sh.pending
    ensures Step(s, e).reader.Stopped? && c in Step(s, e).sh.chans
    ensures Id(c) in Step(s, e).sh.pending <==> e != ClosePending && e != CtxDone(c)
    ensures Id(c) in Step(s, e).sh.pending ==> At(Step(s, e), c, Waiting)
  {
    assert CallInv(s, c);
  }

  /**
   The reader sets no latch at a plain end of input. A call that is in the table then stays there, waiting,
   exactly as long as the table is not closed and its context does not end.
   */
  lemma {:induction false} WaitsAfterEof(s: State, es: seq<Event>, c: nat)
    requires Inv(s) && s.reader.Stopped? && At(s, c, Waiting) && Id(c) in s.sh.pending && Valid(s, es)
    ensures Id(c) in Run(s, es).sh.pending <==> ClosePending !in es && CtxDone(c) !in es
    ensures Id(c) in Run(s, es).sh.pending ==> At(Run(s, es), c, Waiting)
    decreases |es|
  {
    if es != [] {
      var s' := Step(s, es[0]);
      assert es == [es[0]] + es[1..];
      StepInv(s, es[0]);
      WaitingStep(s, es[0], c);
      if Id(c) in s'.sh.pending {
        WaitsAfterEof(s', es[1..], c);
      } else {
        NeverListedAgain(s', es[1..], c);
      }
    }
  }

  /** Whether a call that enters after the reader stopped gets into the table at all is up to the latch. */
  lemma EntersAfterStop(s: State, c: nat)
    requires Inv(s) && Enabled(s, Enter(c)) && s.reader.Stopped?
    ensures var s' := Step(s, Enter(c));
            && (At(s', c, Back(Refused)) <==> s.sh.readErr)
            && (Id(c) in s'.sh.pending <==> !s.sh.readErr)
            && (Id(c) in s'.sh.pending ==> At(s', c, Sending))
  {
    assert CallInv(s, c);
  }

  /** Such a call exists: one that enters after the reader saw the end of input. */
  lemma EofLeavesCallerWaiting()
    ensures exists es, c :: Valid(Init(), es) && ScanEof in es && At(Run(Init(), es), c, Waiting) && Id(c) in Run(Init(), es).sh.pending
  {
    var es := [ScanEof, Begin, Enter(0), SendOk(0)];
    var s1 := Step(Init(), ScanEof);
    var s2 := Step(s1, Begin);
    var s3 := Step(s2, Enter(0));
    var s4 := Step(s3, SendOk(0));
    assert es[1..] == [Begin, Enter(0), SendOk(0)] && es[1..][1..] == [Enter(0), SendOk(0)];
    assert es[1..][1..][1..] == [SendOk(0)] && es[1..][1..][1..][1..] == [];
    assert Valid(s4, []) && Valid(s3, [SendOk(0)]) && Valid(s2, [Enter(0), SendOk(0)]) && Valid(s1, es[1..]);
    assert Run(Init(), es) == s4;
    assert At(s4, 0, Waiting) && Id(0) in s4.sh.pending;
  }

  // ---- refinement of the correlation table ----

  function VerdictOf(s: State, c: nat): Verdict
    requires c < |s.calls| && c in s.sh.chans
  {
    if Id(c) in s.sh.pending then Pending
    else if HeldBy(s, c) then Answered(s.reader.r)
    else if s.sh.chans[c].buf.Some? then Answered(s.sh.chans[c].buf.value)
    else if Taken(s.calls[c]).Some? then Answered(Taken(s.calls[c]).value)
    else if s.sh.chans[c].closed then Shut
    else Withdrawn
  }

  function Abs(s: State): Table {
    map id | 0 < id <= |s.calls| && Known(s, id) :: VerdictOf(s, id - 1)
  }

  /** The id was put in the table at some time. */
  predicate Known(s: State, id: int) {
    0 < id <= |s.calls| && id - 1 in s.sh.chans
  }

  lemma VerdictKept(s: State, e: Event, c: nat)
    requires Inv(s) && Enabled(s, e) && c < |s.calls| && c in s.sh.chans
    ensures c in Step(s, e).sh.chans
    ensures !VerdictOf(s, c).Pending? ==> VerdictOf(Step(s, e), c) == VerdictOf(s, c)
  {
    InTable(s, c);
    assert CallInv(s, c);
  }

  lemma NewIsPending(s: State, e: Event, c: nat)
    requires Inv(s) && Enabled(s, e) && c < |Step(s, e).calls| && c in Step(s, e).sh.chans && c !in s.sh.chans
    ensures VerdictOf(Step(s, e), c).Pending?
  {
  }

  /** Every step of the client is a step of the table or leaves it as it is. */
  lemma StepRefines(s: State, e: Event)
    requires Inv(s) && Enabled(s, e)
    ensures Next(Abs(s), Abs(Step(s, e))) && WellFormed(Abs(s))
  {
    var t, t' := Abs(s), Abs(Step(s, e));
    forall id | id in t
      ensures id in t' && (!t[id].Pending? ==> t'[id] == t[id]) && (t[id].Answered? ==> t[id].r.id == id)
    {
      VerdictKept(s, e, id - 1);
      assert CallInv(s, id - 1);
    }
    forall id | id in t' && id !in t ensures t'[id].Pending? {
      NewIsPending(s, e, id - 1);
    }
  }

  /** The tables the client goes through in a run. */
  function History(s: State, es: seq<Event>): seq<Table>
    requires Valid(s, es)
  {
    Shown(s, es, Step, Abs)
  }

  /** Hence at most one verdict for each request, over every run (`VerdictIsFinal`). */
  lemma HistoryIsChain(s: State, es: seq<Event>)
    requires Inv(s) && Valid(s, es)
    ensures Chain(History(s, es)) && History(s, es)[0] == Abs(s)
  {
    IsTable();
    RunKeeps(s, es, Step, Inv, Abs);
  }

  /** A caller that comes back with a response or a read failure reports the table's verdict. */
  lemma ReturnsTheVerdict(s: State, c: nat)
    requires Inv(s) && c < |s.calls| && s.calls[c].Back?
    ensures s.calls[c].out.Value? ==> Id(c) in Abs(s) && Abs(s)[Id(c)] == Answered(s.calls[c].out.r)
    ensures s.calls[c].out.ReadFailure? ==> Id(c) in Abs(s) && Abs(s)[Id(c)] == Shut
  {
    assert CallInv(s, c);
  }

  // ---- closing the table entry by entry ----

  /** `now` is `open` with the channels of some entries closed. */
  predicate ClosedFor(open: map<nat, Chan>, now: map<nat, Chan>, gone: map<int, nat>) {
    && now.Keys == open.Keys
    && forall c <- open :: now[c] == if Listed(gone, c) then open[c].(closed := true) else open[c]
  }

  lemma CloseOneMore(open: map<nat, Chan>, now: map<nat, Chan>, before: map<int, nat>, keys: set<int>, id: int)
    requires id in keys && keys <= before.Keys && ClosedFor(open, now, before - keys) && forall k <- before :: before[k] in open
    requires forall k <- before :: !open[before[k]].closed && forall j <- before :: k != j ==> before[k] != before[j]
    ensures !now[before[id]].closed
    ensures ClosedFor(open, now[before[id] := now[before[id]].(closed := true)], before - (keys - {id}))
  {
    ListedMore(before, keys, id);
    assert !Listed(before - keys, before[id]);
  }

  // ---- the client object: its critical sections as the source writes them ----

  class Client {
    var nextID: int
    var pending: map<int, nat>
    var chans: map<nat, Chan>
    var readErr: bool
    var panicked: bool
    var dropped: bool

    constructor ()
      ensures Sh() == Init().sh && nextID == 0
    {
      nextID, pending, chans := 0, map[], map[];
      readErr, panicked, dropped := false, false, false;
    }

    ghost function Sh(): Shared
      reads this
    {
      Shared(pending, chans, readErr, panicked, dropped)
    }

    ghost predicate Valid()
      reads this
    {
      Owned(Sh())
    }

    /** atomic.AddInt64(&c.nextID, 1) */
    method DrawID() returns (id: int)
      modifies this
      ensures id == nextID == old(nextID) + 1 && Sh() == old(Sh())
    {
      nextID := nextID + 1;
      id := nextID;
    }

    /** Call's first critical section; `c` names the channel just made. */
    method Enter(id: int, c: nat) returns (refused: bool)
      modifies this
      ensures refused == readErr
      ensures Sh() == if refused then old(Sh()) else Register(old(Sh()), id, c)
      ensures nextID == old(nextID)
      ensures forall s: State :: s.sh == old(Sh()) && id == Id(c) && Enabled(s, Event.Enter(c)) ==>
                                   Step(s, Event.Enter(c)) == Move(s, c, if refused then Back(Refused) else Sending).(sh := Sh())
    {
      if readErr {
        return true;
      }
      chans := chans[c := Chan(None, false)];
      pending := pending[id := c];
      refused := false;
    }

    /** delete(c.pending, id) under the mutex. */
    method Withdraw(id: int)
      modifies this
      ensures Sh() == Delete(old(Sh()), id) && nextID == old(nextID)
      ensures forall s: State, c: nat :: s.sh == old(Sh()) && id == Id(c) && Enabled(s, CtxDone(c)) ==>
                                           Step(s, CtxDone(c)) == Move(s, c, Back(Cancelled)).(sh := Sh())
    {
      pending := pending - {id};
    }

    /** The reader's look-up of a response line. */
    method Take(r: Response) returns (c: Option<nat>)
      modifies this
      ensures c == if r.id in old(pending) then Some(old(pending)[r.id]) else None
      ensures Sh() == if r.id in old(pending) then Delete(old(Sh()), r.id) else old(Sh())
      ensures nextID == old(nextID)
      ensures forall s: State :: s.sh == old(Sh()) && Enabled(s, Match(r)) ==>
                                   Step(s, Match(r)) == s.(sh := Sh(), reader := if c.Some? then Holding(c.value, r) else Scanning)
    {
      if r.id in pending {
        c := Some(pending[r.id]);
        pending := pending - {r.id};
      } else {
        c := None;
      }
    }

    /** The reader's select with a default case. */
    method Put(c: nat, r: Response)
      requires c in chans
      modifies this
      ensures Sh() == Deliver(old(Sh()), c, r) && nextID == old(nextID)
      ensures forall s: State :: s.sh == old(Sh()) && s.reader == Holding(c, r) && Enabled(s, Event.Put) ==>
                                   Step(s, Event.Put) == s.(sh := Sh(), reader := Scanning)
    {
      if chans[c].closed {
        panicked := true;
      } else if chans[c].buf.None? {
        chans := chans[c := Chan(Some(r), false)];
      } else {
        dropped := true;
      }
    }

    method Close(c: nat)
      requires c in chans
      modifies this
      ensures chans == old(chans)[c := old(chans)[c].(closed := true)]
      ensures panicked == (old(panicked) || old(chans)[c].closed)
      ensures pending == old(pending) && readErr == old(readErr) && dropped == old(dropped) && nextID == old(nextID)
    {
      if chans[c].closed {
        panicked := true;
      }
      chans := chans[c := chans[c].(closed := true)];
    }

    /** Closes and removes every entry, in no particular order. */
    method ClosePending()
      requires Valid() && !CloseFaults(Sh())
      modifies this
      ensures Sh() == CloseAll(old(Sh())) && nextID == old(nextID)
    {
      ghost var before, open := pending, chans;
      var keys := pending.Keys;
      assert before - keys == map[];
      while exists id :: id in keys
        invariant keys == pending.Keys <= before.Keys && forall id <- pending :: pending[id] == before[id]
        invariant ClosedFor(open, chans, before - keys)
        invariant panicked == old(panicked) && readErr == old(readErr) && dropped == old(dropped) && nextID == old(nextID)
        decreases keys
      {
        var id :| id in keys;
        var c := pending[id];
        CloseOneMore(open, chans, before, keys, id);
        Close(c);
        pending := pending - {id};
        keys := keys - {id};
      }
      assert pending == map[] && before - keys == before;
    }

    /** What the read loop does when the scanner reports an error. */
    method FailRead()
      requires Valid() && !CloseFaults(Sh())
      modifies this
      ensures Sh() == CloseAll(old(Sh()).(readErr := true)) && nextID == old(nextID)
      ensures forall s: State :: s.sh == old(Sh()) && Enabled(s, ScanErr) ==> Step(s, ScanErr) == s.(sh := Sh(), reader := Stopped)
    {
      readErr := true;
      ClosePending();
    }
  }
}
