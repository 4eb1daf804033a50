/**
 The request layer of internal/provider/codex_appserver.go (request, handleResponse,
 closeAllPending). It has no error latch, never closes a channel, and its reader sends to a waiter's
 channel with a plain blocking send.
 */
module CodexRequests {
  import opened Wrappers
  import opened Correlation

  datatype Msg = Reply(r: Response) | Closing

  /** Every channel has capacity one and is named by the request that made it. */
  datatype Shared = Shared(
    pending: map<int, nat>,
    chans: map<nat, Option<Msg>>,
    dropped: bool)      // closeAllPending took its default case

  predicate Owned(s: Shared) {
    forall id <- s.pending :: s.pending[id] in s.chans
  }

  function Register(s: Shared, id: int, c: nat): Shared {
    s.(pending := s.pending[id := c], chans := s.chans[c := None])
  }

  function Delete(s: Shared, id: int): Shared {
    s.(pending := s.pending - {id})
  }

  /** Two entries with one channel, or an entry whose channel is full: the close notice would be dropped. */
  predicate CloseDrops(s: Shared)
    requires Owned(s)
  {
    || (exists id <- s.pending :: s.chans[s.pending[id]].Some?)
    || (exists id <- s.pending :: exists jd <- s.pending :: id != jd && s.pending[id] == s.pending[jd])
  }

  function CloseAll(s: Shared): Shared
    requires Owned(s)
  {
    s.(pending := map[],
       chans := map c <- s.chans :: if Listed(s.pending, c) && s.chans[c].None? then Some(Closing) else s.chans[c],
       dropped := s.dropped || CloseDrops(s))
  }

  datatype Return = Value(r: Response) | Closed | Cancelled | NotSent

  datatype Pc = Writing | Waiting | Back(out: Return)

  datatype Reader = Scanning | Holding(c: nat, r: Response) | Stopped

  datatype State = State(sh: Shared, calls: seq<Pc>, reader: Reader)

  function Init(): State {
    State(Shared(map[], map[], false), [], Scanning)
  }

  /** Ids are drawn under the mutex, in the order of the requests. */
  function Id(c: nat): int {
    c + 1
  }

  datatype Event =
    | Begin
    | WriteOk(c: nat)
    | WriteErr(c: nat)
    | CtxDone(c: nat)
    | Receive(c: nat)
    | Match(r: Response)
    | Put
    | Eof
    | CloseAllPending

  predicate At(s: State, c: nat, p: Pc) {
    c < |s.calls| && s.calls[c] == p
  }

  predicate Enabled(s: State, e: Event) {
    && Owned(s.sh)
    && match e
       case Begin | CloseAllPending => true
       case WriteOk(c) => At(s, c, Writing)
       case WriteErr(c) => At(s, c, Writing)
       case CtxDone(c) => At(s, c, Waiting)
       case Receive(c) => At(s, c, Waiting) && c in s.sh.chans && s.sh.chans[c].Some?
       case Match(_) | Eof => s.reader.Scanning?
       case Put => s.reader.Holding? && s.reader.c in s.sh.chans && s.sh.chans[s.reader.c].None?
  }

  function Move(s: State, c: nat, p: Pc): State
    requires c < |s.calls|
  {
    s.(calls := s.calls[c := p])
  }

  function Step(s: State, e: Event): State
    requires Enabled(s, e)
  {
    match e
    case Begin => s.(calls := s.calls + [Writing], sh := Register(s.sh, Id(|s.calls|), |s.calls|))
    case WriteOk(c) => Move(s, c, Waiting)
    case WriteErr(c) => Move(s, c, Back(NotSent)).(sh := Delete(s.sh, Id(c)))
    case CtxDone(c) => Move(s, c, Back(Cancelled)).(sh := Delete(s.sh, Id(c)))
    case Receive(c) =>
      Move(s, c, Back(match s.sh.chans[c].value case Reply(r) => Value(r) case Closing => Closed))
      .(sh := s.sh.(chans := s.sh.chans[c := None]))
    case Match(r) =>
      if r.id in s.sh.pending then s.(sh := Delete(s.sh, r.id), reader := Holding(s.sh.pending[r.id], r)) else s
    case Put =>
      s.(sh := s.sh.(chans := s.sh.chans[s.reader.c := Some(Reply(s.reader.r))]), reader := Scanning)
    case Eof => s.(reader := Stopped)
    case CloseAllPending => s.(sh := CloseAll(s.sh))
  }

  // ---- invariant ----

  predicate HeldBy(s: State, c: nat) {
    s.reader.Holding? && s.reader.c == c
  }

  /** What the call has received, as the message it was. */
  function Taken(p: Pc): Option<Msg> {
    match p
    case Back(Value(r)) => Some(Reply(r))
    case Back(Closed) => Some(Closing)
    case _ => None
  }

  predicate CallInv(s: State, c: nat)
    requires c < |s.calls|
  {
    var p, inTable, held := s.calls[c], Id(c) in s.sh.pending, HeldBy(s, c);
    && c in s.sh.chans
    && var ch := s.sh.chans[c];
       && (inTable ==> ch.None? && !held && !p.Back?)
       && (held ==> ch.None? && s.reader.r.id == Id(c))
       && (ch.Some? && ch.value.Reply? ==> ch.value.r.id == Id(c))
       && (Taken(p).Some? ==> !inTable && !held && ch.None?)
       && (p.Back? && p.out.Value? ==> p.out.r.id == Id(c))
       && (!p.Back? ==> inTable || held || ch.Some?)
  }

  predicate TableInv(s: State) {
    && (forall id <- s.sh.pending :: 0 < id <= |s.calls| && s.sh.pending[id] == id - 1)
    && (forall c <- s.sh.chans :: c < |s.calls|)
    && (s.reader.Holding? ==> s.reader.c < |s.calls|)
    && !s.sh.dropped
  }

  predicate Inv(s: State) {
    TableInv(s) && forall c :: 0 <= c < |s.calls| ==> CallInv(s, c)
  }

  lemma InTable(s: State, c: nat)
    requires TableInv(s)
    ensures Listed(s.sh.pending, c) <==> Id(c) in s.sh.pending
  {
    if Id(c) in s.sh.pending {
      assert s.sh.pending[Id(c)] == c;
    }
  }

  lemma NothingDropped(s: State)
    requires Inv(s)
    ensures Owned(s.sh) && !CloseDrops(s.sh)
  {
    forall c: nat | Listed(s.sh.pending, c) ensures c in s.sh.chans && s.sh.chans[c].None? {
      InTable(s, c);
      assert CallInv(s, c);
    }
  }

  lemma StepTable(s: State, e: Event)
    requires Inv(s) && Enabled(s, e)
    ensures TableInv(Step(s, e))
  {
    NothingDropped(s);
  }

  lemma StepCall(s: State, e: Event, c: nat)
    requires Inv(s) && Enabled(s, e) && c < |Step(s, e).calls|
    ensures CallInv(Step(s, e), c)
  {
    InTable(s, c);
    if c < |s.calls| {
      assert CallInv(s, c);
    }
  }

  lemma StepInv(s: State, e: Event)
    requires Inv(s) && Enabled(s, e)
    ensures Inv(Step(s, e))
  {
    StepTable(s, e);
    forall c | 0 <= c < |Step(s, e).calls| ensures CallInv(Step(s, e), c) {
      StepCall(s, e, c);
    }
  }

  ghost predicate Valid(s: State, es: seq<Event>) {
    ValidRun(s, es, Step)
  }

  function Run(s: State, es: seq<Event>): State
    requires Valid(s, es)
  {
    RunFrom(s, es, Step)
  }

  /** The requests of a connection refine the abstract table. */
  lemma IsTable()
    ensures Refines(Step, Inv, Abs)
  {
    forall s, e | Inv(s) && Enabled(s, e) ensures Inv(Step(s, e)) && Next(Abs(s), Abs(Step(s, e))) {
      StepInv(s, e);
      StepRefines(s, e);
    }
  }

  lemma RunInv(s: State, es: seq<Event>)
    requires Inv(s) && Valid(s, es)
    ensures Inv(Run(s, es))
  {
    IsTable();
    RunKeeps(s, es, Step, Inv, Abs);
  }

  // ---- what callers and the reader get out of it ----

  /** The event that a request's way out needs. */
  predicate Explains(es: seq<Event>, c: nat, p: Pc) {
    match p
    case Back(Value(r)) => Match(r) in es
    case Back(Closed) => CloseAllPending in es
    case Back(Cancelled) => CtxDone(c) in es
    case Back(NotSent) => WriteErr(c) in es
    case _ => true
  }

  predicate MailExplained(es: seq<Event>, m: Option<Msg>) {
    match m
    case Some(Reply(r)) => Match(r) in es
    case Some(Closing) => CloseAllPending in es
    case None => true
  }

  /** Whatever requests, channels and the reader hold came from an event of the run. */
  predicate Explained(es: seq<Event>, s: State) {
    && (forall c :: 0 <= c < |s.calls| ==> Explains(es, c, s.calls[c]))
    && (forall c <- s.sh.chans :: MailExplained(es, s.sh.chans[c]))
    && (s.reader.Holding? ==> Match(s.reader.r) in es)
    && (s.reader.Stopped? <==> Eof in es)
  }

  lemma StepExplained(es: seq<Event>, e: Event, s: State)
    requires Inv(s) && Explained(es, s) && Enabled(s, e)
    ensures Explained(es + [e], Step(s, e))
  {
    var fs, s' := es + [e], Step(s, e);
    assert e in fs;
    forall c | 0 <= c < |s'.calls| ensures Explains(fs, c, s'.calls[c]) {
      assert e.Receive? ==> MailExplained(es, s.sh.chans[e.c]);
    }
    forall c | c in s'.sh.chans ensures MailExplained(fs, s'.sh.chans[c]) {
      assert c in s.sh.chans ==> MailExplained(es, s.sh.chans[c]);
    }
  }

  lemma {:induction false} RunExplained(before: seq<Event>, s: State, es: seq<Event>)
    requires Inv(s) && Explained(before, s) && Valid(s, es)
    ensures Explained(before + es, Run(s, es))
    decreases |es|
  {
    if es == [] {
      assert before + es == before;
    } else {
      StepInv(s, es[0]);
      StepExplained(before, es[0], s);
      RunExplained(before + [es[0]], Step(s, es[0]), es[1..]);
      assert before + es == before + [es[0]] + es[1..];
    }
  }

  /**
   The reader's blocking send never blocks, no close notice is dropped, and every way out has its cause: a
   returned value is the caller's own and was read, the close notice comes from a close, a cancellation from
   the caller's own context.
   */
  lemma ReaderNeverBlocks(es: seq<Event>, c: nat)
    requires Valid(Init(), es) && c < |Run(Init(), es).calls|
    ensures var s := Run(Init(), es);
            && !s.sh.dropped
            && Explains(es, c, s.calls[c])
            && (s.reader.Stopped? <==> Eof in es)
            && (s.reader.Holding? ==> Enabled(s, Put))
            && (s.calls[c].Back? && s.calls[c].out.Value? ==> s.calls[c].out.r.id == Id(c))
  {
    var s := Run(Init(), es);
    RunInv(Init(), es);
    RunExplained([], Init(), es);
    assert [] + es == es;
    NothingDropped(s);
    assert CallInv(s, c);
    if s.reader.Holding? {
      assert CallInv(s, s.reader.c);
    }
  }

  /** No lost wake-up: a request still waiting is in the table, or its answer is on the way, or it can go on. */
  lemma NoLostWakeup(es: seq<Event>, c: nat)
    requires Valid(Init(), es) && At(Run(Init(), es), c, Waiting)
    ensures var s := Run(Init(), es);
            Id(c) in s.sh.pending || (HeldBy(s, c) && Enabled(s, Put)) || Enabled(s, Receive(c))
  {
    var s := Run(Init(), es);
    RunInv(Init(), es);
    NothingDropped(s);
    assert CallInv(s, c);
  }

  /** A request that has left the table never comes back into it. */
  lemma {:induction false} NeverListedAgain(s: State, es: seq<Event>, c: nat)
    requires Inv(s) && Valid(s, es) && c < |s.calls| && Id(c) !in s.sh.pending
    ensures Id(c) !in Run(s, es).sh.pending
    decreases |es|
  {
    if es != [] {
      StepInv(s, es[0]);
      NeverListedAgain(Step(s, es[0]), es[1..], c);
    }
  }

  lemma WaitingStep(s: State, e: Event, c: nat)
    requires Inv(s) && Enabled(s, e) && s.reader.Stopped? && At(s, c, Waiting) && Id(c) in s.sh.pending
    ensures Step(s, e).reader.Stopped? && c < |Step(s, e).calls|
    ensures Id(c) in Step(s, e).sh.pending <==> e != CloseAllPending && e != CtxDone(c)
    ensures Id(c) in Step(s, e).sh.pending ==> At(Step(s, e), c, Waiting)
  {
    assert CallInv(s, c);
  }

  /** With the reader gone, a waiting request stays in the table exactly as long as there is no close and its context does not end. */
  lemma {:induction false} WaitsAfterClose(s: State, es: seq<Event>, c: nat)
    requires Inv(s) && s.reader.Stopped? && At(s, c, Waiting) && Id(c) in s.sh.pending && Valid(s, es)
    ensures Id(c) in Run(s, es).sh.pending <==> CloseAllPending !in es && CtxDone(c) !in es
    ensures Id(c) in Run(s, es).sh.pending ==> At(Run(s, es), c, Waiting)
    decreases |es|
  {
    if es != [] {
      var s' := Step(s, es[0]);
      assert es == [es[0]] + es[1..];
      StepInv(s, es[0]);
      WaitingStep(s, es[0], c);
      if Id(c) in s'.sh.pending {
        WaitsAfterClose(s', es[1..], c);
      } else {
        NeverListedAgain(s', es[1..], c);
      }
    }
  }

  /** There is no latch: a request made after the reader stopped, or after any close, is listed like any other. */
  lemma BeginsListed(s: State)
    requires Inv(s) && Enabled(s, Begin)
    ensures Id(|s.calls|) in Step(s, Begin).sh.pending && At(Step(s, Begin), |s.calls|, Writing)
  {
  }

  lemma CloseLeavesLaterRequestsWaiting()
    ensures exists es, c :: Valid(Init(), es) && CloseAllPending in es && At(Run(Init(), es), c, Waiting) && Id(c) in Run(Init(), es).sh.pending
  {
    var es := [Eof, CloseAllPending, Begin, WriteOk(0)];
    var s1 := Step(Init(), Eof);
    var s2 := Step(s1, CloseAllPending);
    var s3 := Step(s2, Begin);
    var s4 := Step(s3, WriteOk(0));
    assert es[1..] == [CloseAllPending, Begin, WriteOk(0)] && es[1..][1..] == [Begin, WriteOk(0)];
    assert es[1..][1..][1..] == [WriteOk(0)] && es[1..][1..][1..][1..] == [];
    assert Valid(s4, []) && Valid(s3, [WriteOk(0)]) && Valid(s2, [Begin, WriteOk(0)]) && Valid(s1, es[1..]);
    assert Run(Init(), es) == s4;
    assert At(s4, 0, Waiting) && Id(0) in s4.sh.pending;
  }

  // ---- refinement of the correlation table ----

  function VerdictOf(s: State, c: nat): Verdict
    requires c < |s.calls| && c in s.sh.chans
  {
    if Id(c) in s.sh.pending then Pending
    else if HeldBy(s, c) then Answered(s.reader.r)
    else
      var m := if s.sh.chans[c].Some? then s.sh.chans[c] else Taken(s.calls[c]);
      match m
      case Some(Reply(r)) => Answered(r)
      case Some(Closing) => Shut
      case None => Withdrawn
  }

  function Abs(s: State): Table {
    map id | 0 < id <= |s.calls| && Known(s, id) :: VerdictOf(s, id - 1)
  }

  /** The id was put in the table at some time. */
  predicate Known(s: State, id: int) {
    0 < id <= |s.calls| && id - 1 in s.sh.chans
  }

  lemma VerdictKept(s: State, e: Event, c: nat)
    requires Inv(s) && Enabled(s, e) && c < |s.calls|
    ensures c in s.sh.chans && c in Step(s, e).sh.chans
    ensures !VerdictOf(s, c).Pending? ==> VerdictOf(Step(s, e), c) == VerdictOf(s, c)
  {
    InTable(s, c);
    assert CallInv(s, c);
  }

  /** Every step of the request layer is a step of the table or leaves it as it is. */
  lemma StepRefines(s: State, e: Event)
    requires Inv(s) && Enabled(s, e)
    ensures Next(Abs(s), Abs(Step(s, e))) && WellFormed(Abs(s))
  {
    var t, t' := Abs(s), Abs(Step(s, e));
    forall id | id in t
      ensures id in t' && (!t[id].Pending? ==> t'[id] == t[id]) && (t[id].Answered? ==> t[id].r.id == id)
    {
      VerdictKept(s, e, id - 1);
      assert CallInv(s, id - 1);
    }
    forall id | id in t' && id !in t ensures t'[id].Pending? {
      assert 0 < id <= |s.calls| ==> CallInv(s, id - 1);
    }
  }

  function History(s: State, es: seq<Event>): seq<Table>
    requires Valid(s, es)
  {
    Shown(s, es, Step, Abs)
  }

  /** Hence at most one verdict for each request, over every run (`VerdictIsFinal`). */
  lemma HistoryIsChain(s: State, es: seq<Event>)
    requires Inv(s) && Valid(s, es)
    ensures Chain(History(s, es)) && History(s, es)[0] == Abs(s)
  {
    IsTable();
    RunKeeps(s, es, Step, Inv, Abs);
  }

  /** A request that comes back with a value or the close notice reports the table's verdict. */
  lemma ReturnsTheVerdict(s: State, c: nat)
    requires Inv(s) && c < |s.calls| && s.calls[c].Back?
    ensures s.calls[c].out.Value? ==> Id(c) in Abs(s) && Abs(s)[Id(c)] == Answered(s.calls[c].out.r)
    ensures s.calls[c].out.Closed? ==> Id(c) in Abs(s) && Abs(s)[Id(c)] == Shut
  {
    assert CallInv(s, c);
  }

  // ---- the connection object: its critical sections as the source writes them ----

  class Requests {
    var nextID: int
    var pending: map<int, nat>
    var chans: map<nat, Option<Msg>>
    var dropped: bool

    constructor ()
      ensures Sh() == Init().sh && nextID == 0
    {
      nextID, pending, chans, dropped := 0, map[], map[], false;
    }

    ghost function Sh(): Shared
      reads this
    {
      Shared(pending, chans, dropped)
    }

    /** The first critical section of request; `c` names the channel just made. */
    method Begin(c: nat) returns (id: int)
      modifies this
      ensures id == nextID == old(nextID) + 1
      ensures Sh() == Register(old(Sh()), id, c)
      ensures forall s: State :: s.sh == old(Sh()) && |s.calls| == c && Id(c) == id && Owned(s.sh) ==>
                                   Step(s, Event.Begin) == s.(calls := s.calls + [Writing], sh := Sh())
    {
      nextID := nextID + 1;
      id := nextID;
      chans := chans[c := None];
      pending := pending[id := c];
    }

    method Withdraw(id: int)
      modifies this
      ensures Sh() == Delete(old(Sh()), id) && nextID == old(nextID)
      ensures forall s: State, c: nat :: s.sh == old(Sh()) && id == Id(c) && Enabled(s, CtxDone(c)) ==>
                                           Step(s, CtxDone(c)) == Move(s, c, Back(Cancelled)).(sh := Sh())
    {
      pending := pending - {id};
    }

    /** handleResponse up to the channel send. */
    method Take(r: Response) returns (c: Option<nat>)
      modifies this
      ensures c == if r.id in old(pending) then Some(old(pending)[r.id]) else None
      ensures Sh() == if r.id in old(pending) then Delete(old(Sh()), r.id) else old(Sh())
      ensures nextID == old(nextID)
      ensures forall s: State :: s.sh == old(Sh()) && Enabled(s, Match(r)) ==>
                                   Step(s, Match(r)) == s.(sh := Sh(), reader := if c.Some? then Holding(c.value, r) else Scanning)
    {
      if r.id in pending {
        c := Some(pending[r.id]);
        pending := pending - {r.id};
      } else {
        c := None;
      }
    }

    /** select with a default case on one entry. */
    method Notify(c: nat)
      requires c in chans
      modifies this
      ensures chans == old(chans)[c := if old(chans)[c].None? then Some(Closing) else old(chans)[c]]
      ensures dropped == (old(dropped) || old(chans)[c].Some?)
      ensures pending == old(pending) && nextID == old(nextID)
    {
      if chans[c].None? {
        chans := chans[c := Some(Closing)];
      } else {
        dropped := true;
      }
    }

    /** Notifies and removes every entry, in no particular order. */
    method CloseAllPending()
      requires Owned(Sh()) && !CloseDrops(Sh())
      modifies this
      ensures Sh() == CloseAll(old(Sh())) && nextID == old(nextID)
    {
      ghost var before, open := pending, chans;
      var keys := pending.Keys;
      while exists id :: id in keys
        invariant keys == pending.Keys <= before.Keys && forall id <- pending :: pending[id] == before[id]
        invariant chans.Keys == open.Keys
        invariant forall c <- open :: chans[c] == if Listed(before - keys, c) then Some(Closing) else open[c]
        invariant dropped == old(dropped) && nextID == old(nextID)
        decreases keys
      {
        var id :| id in keys;
        var c := pending[id];
        ListedMore(before, keys, id);
        Notify(c);
        pending := pending - {id};
        keys := keys - {id};
      }
      assert pending == map[] && before - keys == before;
    }
  }
}
