/**
 The worker and the scheduler as the objects of internal/scheduler/scheduler.go. One call of
 `HandleJob` is one iteration of the run loop; it is proved to walk the small-step machine of module
 Worker along the path that the outcomes of the external calls dictate.
 */
module WorkerObject {
  import opened Session
  import opened Worker
  import opened WorkerInv
  import opened Scheduler
  import opened SchedulerTheorems

  /** The events so far could happen in this order. */
  predicate CanWalk(w: State, es: seq<Event>)
    decreases |es|, 0
  {
    es == [] || (CanWalk(w, es[..|es| - 1]) && Enabled(Walk(w, es[..|es| - 1]), es[|es| - 1]))
  }

  function Walk(w: State, es: seq<Event>): State
    requires CanWalk(w, es)
    decreases |es|, 1
  {
    if es == [] then w else Step(Walk(w, es[..|es| - 1]), es[|es| - 1])
  }

  function WalkReg(w: State, reg: map<string, Key>, es: seq<Event>): map<string, Key>
    requires CanWalk(w, es)
    decreases |es|
  {
    if es == [] then reg
    else RegStep(Walk(w, es[..|es| - 1]), es[|es| - 1], WalkReg(w, reg, es[..|es| - 1]))
  }

  lemma WalkMore(w: State, reg: map<string, Key>, es: seq<Event>, e: Event)
    requires CanWalk(w, es) && Enabled(Walk(w, es), e)
    ensures CanWalk(w, es + [e])
    ensures Walk(w, es + [e]) == Step(Walk(w, es), e)
    ensures WalkReg(w, reg, es + [e]) == RegStep(Walk(w, es), e, WalkReg(w, reg, es))
  {
    assert (es + [e])[..|es|] == es;
  }

  /** How the external calls of one iteration turn out; later entries matter only if the earlier calls succeed. */
  datatype Outcome = Outcome(wsOk: bool, preOk: bool, token: string, startOk: bool, ctxOk: bool, promptOk: bool)

  /** Setting up a session: the events up to and including the provider start, or up to the first failure. */
  function SetupPath(o: Outcome): seq<Event> {
    if !o.wsOk then [WsErr]
    else if !o.preOk then [WsOk, PreErr]
    else [WsOk, PreOk, Minted(o.token), if o.startOk then StartOk else StartErr]
  }

  function PromptPath(o: Outcome): seq<Event> {
    if !o.ctxOk then [CtxErr] else [CtxOk, Answered(o.promptOk), Replied]
  }

  /** The events of one iteration; a live provider skips the setup, a failed setup skips the prompt. */
  function Path(live: bool, o: Outcome): seq<Event> {
    if live then [Recv] + PromptPath(o)
    else if o.wsOk && o.preOk && o.startOk then [Recv] + SetupPath(o) + PromptPath(o)
    else [Recv] + SetupPath(o)
  }

  /** There is a live provider for the prompt. */
  predicate Up(live: bool, o: Outcome) {
    live || (o.wsOk && o.preOk && o.startOk)
  }

  /** All goes well up to the reply. */
  predicate Succeeds(live: bool, o: Outcome) {
    Up(live, o) && o.ctxOk && o.promptOk
  }

  class ThreadWorker {
    const key: Key
    const ctxReg: Registry
    const api: bool
    var jobs: seq<Job>
    var contextBearerToken: string
    var sessionBootstrapBody: string
    var sessionBootstrapDone: bool
    var prov: bool
    var ws: bool
    var idle: bool
    ghost var trace: seq<Act>

    constructor (key: Key, ctxReg: Registry, api: bool)
      ensures this.key == key && this.ctxReg == ctxReg && this.api == api
      ensures Model(Select) == NewWorker(key)
    {
      this.key, this.ctxReg, this.api := key, ctxReg, api;
      jobs := [];
      contextBearerToken, sessionBootstrapBody, sessionBootstrapDone := "", "", false;
      prov, ws, idle := false, false, false;
      trace := [];
    }

    ghost function Model(pc: Pc): State
      reads this
    {
      State(key, jobs, pc, ws, prov, idle, contextBearerToken, sessionBootstrapBody, sessionBootstrapDone, trace)
    }

    /** The channel send of Enqueue; a full channel blocks the sender, shown here as `sent == false`. */
    method Offer(job: Job) returns (sent: bool)
      modifies this
      ensures sent == (|old(jobs)| < CHANNEL_CAPACITY)
      ensures forall pc :: Model(pc) == if sent then Accept(old(Model(pc)), job) else old(Model(pc))
    {
      sent := |jobs| < CHANNEL_CAPACITY;
      if sent {
        jobs := jobs + [job];
        trace := trace + [Sent(job)];
      }
    }

    method Finish(job: Job, ok: bool)
      modifies this
      ensures Model(Select) == Worker.Finish(old(Model(Select)), job, ok)
      ensures trace == old(trace) + [Done(job, ok)]
    {
      trace := trace + [Done(job, ok)];
      idle := true;
    }

    /** Workspace and pre-session command. */
    method OpenWorkspace(job: Job, o: Outcome) returns (ok: bool)
      modifies this
      ensures ok == (o.wsOk && o.preOk)
      ensures var w := old(Model(OpenWs(job)));
              if !o.wsOk then Model(Select) == Step(w, WsErr)
              else if !o.preOk then Model(Select) == Step(Step(w, WsOk), PreErr)
              else Model(Mint(job)) == Step(Step(w, WsOk), PreOk)
    {
      if !o.wsOk {
        Finish(job, false);
        return false;
      }
      ws := true;
      trace := trace + [WsCreated];
      if !o.preOk {
        trace := trace + [WsCleaned];
        ws := false;
        Finish(job, false);
        return false;
      }
      ok := true;
    }

    /** Token and provider. */
    method StartProvider(job: Job, o: Outcome)
      requires ws
      modifies this, ctxReg
      ensures var w, r := old(Model(Mint(job))), old(ctxReg.m);
              var x := Step(w, Minted(o.token));
              var e := if o.startOk then StartOk else StartErr;
              && Model(if o.startOk then ApplyCtx(job) else Select) == Step(x, e)
              && ctxReg.m == RegStep(x, e, RegStep(w, Minted(o.token), r))
    {
      var opening := job.opening;
      var bearer := o.token;
      if bearer != "" {
        ctxReg.Register(bearer, key);
        trace := trace + [TokenIn(bearer)];
      }
      if !o.startOk {
        if bearer != "" {
          ctxReg.Unregister(bearer);
          trace := trace + [TokenOut(bearer)];
        }
        trace := trace + [WsCleaned];
        ws := false;
        Finish(job, false);
        return;
      }
      prov := true;
      contextBearerToken := bearer;
      sessionBootstrapBody := opening;
      sessionBootstrapDone := false;
      trace := trace + [ProvStarted(job)];
    }

    /** AGENTS.md refresh, prompt and reply. */
    method PromptOnce(job: Job, o: Outcome)
      modifies this
      ensures var w := old(Model(ApplyCtx(job)));
              Model(Select) == if !o.ctxOk then Step(w, CtxErr)
                               else Step(Step(Step(w, CtxOk), Answered(o.promptOk)), Replied)
      ensures trace != [] && trace[|trace| - 1] == Done(job, o.ctxOk && o.promptOk)
    {
      if !o.ctxOk {
        Finish(job, false);
        return;
      }
      SendPrompt(job, o.promptOk);
      Finish(job, o.promptOk);
    }

    /** The opening until it has succeeded once, the job's own text from then on. */
    method SendPrompt(job: Job, ok: bool)
      modifies this
      ensures Model(Reply(job, ok)) == Step(old(Model(Ask(job))), Answered(ok))
    {
      if sessionBootstrapBody != "" && !sessionBootstrapDone {
        trace := trace + [Prompted(Prompt(job, sessionBootstrapBody, ok))];
        if ok {
          sessionBootstrapDone := true;
        }
      } else {
        trace := trace + [Prompted(Prompt(job, job.text, ok))];
      }
    }

    /** One iteration of the loop's job arm: the oldest message is taken and worked off. */
    method HandleJob(o: Outcome)
      requires jobs != [] && prov == ws
      modifies this, ctxReg
      ensures CanWalk(old(Model(Select)), Path(old(prov), o))
      ensures Model(Select) == Walk(old(Model(Select)), Path(old(prov), o))
      ensures ctxReg.m == WalkReg(old(Model(Select)), old(ctxReg.m), Path(old(prov), o))
    {
      ghost var w, r, live := Model(Select), ctxReg.m, prov;
      var job := jobs[0];
      jobs := jobs[1..];
      idle := false;
      ghost var w1 := Model(if prov then ApplyCtx(job) else OpenWs(job));
      assert w1 == Step(w, Recv);
      if !prov {
        var ok := OpenWorkspace(job, o);
        if !ok {
          OpenPath(w, r, o);
          return;
        }
        StartProvider(job, o);
        if !o.startOk {
          StartPath(w, r, o);
          return;
        }
      }
      PromptOnce(job, o);
      PromptedPath(w, r, live, o);
    }

    /** The idle arm: provider and workspace are closed and the loop is left. */
    method CloseIdle()
      requires idle
      modifies this
      ensures Model(Unreg) == Step(old(Model(Select)), IdleFire)
    {
      if prov {
        prov := false;
        trace := trace + [ProvClosed];
      }
      if ws {
        ws := false;
        trace := trace + [WsCleaned];
      }
      idle := false;
    }

    /** The first deferred call. */
    method UnregisterToken()
      modifies this, ctxReg
      ensures Model(Unmap) == Step(old(Model(Unreg)), Unregister)
      ensures ctxReg.m == Unregistered(old(ctxReg.m), contextBearerToken)
    {
      if contextBearerToken != "" {
        ctxReg.Unregister(contextBearerToken);
        trace := trace + [TokenOut(contextBearerToken)];
      }
    }

    /** The idle arm with the first deferred call; removing the map entry is the scheduler's part. */
    method IdleExit()
      requires idle
      modifies this, ctxReg
      ensures Model(Unmap) == Step(Step(old(Model(Select)), IdleFire), Unregister)
      ensures ctxReg.m == Unregistered(old(ctxReg.m), contextBearerToken)
    {
      CloseIdle();
      UnregisterToken();
    }
  }

  /** A walk of one event, unfolded. */
  lemma WalkStart(w: State, reg: map<string, Key>, e: Event)
    requires Enabled(w, e)
    ensures CanWalk(w, [e]) && Walk(w, [e]) == Step(w, e) && WalkReg(w, reg, [e]) == RegStep(w, e, reg)
  {
    WalkMore(w, reg, [], e);
    assert [] + [e] == [e];
  }

  lemma OpenPath(w: State, reg: map<string, Key>, o: Outcome)
    requires w.pc.Select? && w.queue != [] && !w.prov && !(o.wsOk && o.preOk)
    ensures CanWalk(w, Path(false, o)) && WalkReg(w, reg, Path(false, o)) == reg
    ensures Walk(w, Path(false, o)) ==
            if !o.wsOk then Step(Step(w, Recv), WsErr) else Step(Step(Step(w, Recv), WsOk), PreErr)
  {
    WalkStart(w, reg, Recv);
    if !o.wsOk {
      WalkMore(w, reg, [Recv], WsErr);
      assert [Recv] + [WsErr] == Path(false, o);
    } else {
      WalkMore(w, reg, [Recv], WsOk);
      WalkMore(w, reg, [Recv] + [WsOk], PreErr);
      assert [Recv] + [WsOk] + [PreErr] == Path(false, o);
    }
  }

  /** The state in which the provider start is attempted. */
  function BeforeStart(w: State, o: Outcome): State
    requires w.pc.Select? && w.queue != [] && !w.prov
  {
    Step(Step(Step(Step(w, Recv), WsOk), PreOk), Minted(o.token))
  }

  lemma SetupWalk(w: State, reg: map<string, Key>, o: Outcome)
    requires w.pc.Select? && w.queue != [] && !w.prov && o.wsOk && o.preOk
    ensures var es := [Recv] + SetupPath(o);
            var e := if o.startOk then StartOk else StartErr;
            && CanWalk(w, es)
            && Walk(w, es) == Step(BeforeStart(w, o), e)
            && WalkReg(w, reg, es) == RegStep(BeforeStart(w, o), e, Registered(reg, o.token, w.key))
  {
    var e := if o.startOk then StartOk else StartErr;
    var minted := [Recv] + [WsOk] + [PreOk] + [Minted(o.token)];
    MintedWalk(w, reg, o);
    WalkMore(w, reg, minted, e);
    assert minted + [e] == [Recv] + SetupPath(o);
  }

  lemma MintedWalk(w: State, reg: map<string, Key>, o: Outcome)
    requires w.pc.Select? && w.queue != [] && !w.prov
    ensures var es := [Recv] + [WsOk] + [PreOk] + [Minted(o.token)];
            CanWalk(w, es) && Walk(w, es) == BeforeStart(w, o) && WalkReg(w, reg, es) == Registered(reg, o.token, w.key)
  {
    OpenedWalk(w, reg, o);
    WalkMore(w, reg, [Recv] + [WsOk] + [PreOk], Minted(o.token));
  }

  lemma OpenedWalk(w: State, reg: map<string, Key>, o: Outcome)
    requires w.pc.Select? && w.queue != [] && !w.prov
    ensures var es := [Recv] + [WsOk] + [PreOk];
            && CanWalk(w, es) && Walk(w, es) == Step(Step(Step(w, Recv), WsOk), PreOk) && WalkReg(w, reg, es) == reg
  {
    WalkStart(w, reg, Recv);
    WalkMore(w, reg, [Recv], WsOk);
    WalkMore(w, reg, [Recv] + [WsOk], PreOk);
  }

  lemma StartPath(w: State, reg: map<string, Key>, o: Outcome)
    requires w.pc.Select? && w.queue != [] && !w.prov && o.wsOk && o.preOk && !o.startOk
    ensures CanWalk(w, Path(false, o))
    ensures Walk(w, Path(false, o)) == Step(BeforeStart(w, o), StartErr)
    ensures WalkReg(w, reg, Path(false, o)) == RegStep(BeforeStart(w, o), StartErr, Registered(reg, o.token, w.key))
  {
    SetupWalk(w, reg, o);
  }

  /** The state in which AGENTS.md is refreshed, and the registry then. */
  function BeforePrompt(w: State, o: Outcome): State
    requires w.pc.Select? && w.queue != [] && (w.prov ==> w.ws)
  {
    if w.prov then Step(w, Recv) else Step(BeforeStart(w, o), StartOk)
  }

  lemma PromptedPath(w: State, reg: map<string, Key>, live: bool, o: Outcome)
    requires w.pc.Select? && w.queue != [] && w.prov == live && (live ==> w.ws)
    requires live || (o.wsOk && o.preOk && o.startOk)
    ensures CanWalk(w, Path(live, o))
    ensures Walk(w, Path(live, o)) ==
            if !o.ctxOk then Step(BeforePrompt(w, o), CtxErr)
            else Step(Step(Step(BeforePrompt(w, o), CtxOk), Answered(o.promptOk)), Replied)
    ensures WalkReg(w, reg, Path(live, o)) == if live then reg else Registered(reg, o.token, w.key)
  {
    if live {
      WalkStart(w, reg, Recv);
      PromptWalk(w, reg, [Recv], o);
    } else {
      SetupWalk(w, reg, o);
      PromptWalk(w, reg, [Recv] + SetupPath(o), o);
    }
  }

  lemma PromptWalk(w: State, reg: map<string, Key>, es: seq<Event>, o: Outcome)
    requires CanWalk(w, es) && Walk(w, es).pc.ApplyCtx?
    ensures CanWalk(w, es + PromptPath(o))
    ensures Walk(w, es + PromptPath(o)) ==
            if !o.ctxOk then Step(Walk(w, es), CtxErr)
            else Step(Step(Step(Walk(w, es), CtxOk), Answered(o.promptOk)), Replied)
    ensures WalkReg(w, reg, es + PromptPath(o)) == WalkReg(w, reg, es)
  {
    if !o.ctxOk {
      WalkMore(w, reg, es, CtxErr);
    } else {
      WalkMore(w, reg, es, CtxOk);
      WalkMore(w, reg, es + [CtxOk], Answered(o.promptOk));
      WalkMore(w, reg, es + [CtxOk] + [Answered(o.promptOk)], Replied);
      assert es + [CtxOk] + [Answered(o.promptOk)] + [Replied] == es + PromptPath(o);
    }
  }

  // ---- a message that arrives in the middle of an iteration ----

  /** The machine state without the order in which things happened, and what happened. */
  predicate SameButOrder(x: State, y: State) {
    x.(trace := []) == y.(trace := []) && Read(x.trace) == Read(y.trace)
  }

  /** It does not matter whether a message arrives before or after an event: so an iteration may be seen in one piece. */
  lemma ArrivalCommutes(w: State, e: Event, j: Job)
    requires Enabled(w, e)
    ensures Enabled(Accept(w, j), e)
    ensures SameButOrder(Step(Accept(w, j), e), Accept(Step(w, e), j))
  {
    ArrivalState(w, e, j);
    LedgerAfter(w, e, j);
    LedgerBefore(w, e, j);
    ArrivalLedger(w, e, j, Read(w.trace));
  }

  lemma ArrivalState(w: State, e: Event, j: Job)
    requires Enabled(w, e)
    ensures Enabled(Accept(w, j), e)
    ensures Step(Accept(w, j), e).(trace := []) == Accept(Step(w, e), j).(trace := [])
  {
    if e.Recv? {
      assert (w.queue + [j])[1..] == w.queue[1..] + [j];
    } else {
      OtherArrival(w, e, j);
    }
  }

  lemma OtherArrival(w: State, e: Event, j: Job)
    requires Enabled(w, e) && !e.Recv?
    ensures Enabled(Accept(w, j), e)
    ensures Step(Accept(w, j), e).(trace := []) == Accept(Step(w, e), j).(trace := [])
  {
    if Finishes(e) {
      FinishArrival(w, e, j);
    } else if e.IdleFire? || e.Unregister? || e.Remove? {
      ExitArrival(w, e, j);
    } else if e.Minted? || e.StartOk? || e.Answered? {
      WorkArrival(w, e, j);
    } else {
      SetupArrival(w, e, j);
    }
  }

  lemma FinishArrival(w: State, e: Event, j: Job)
    requires Enabled(w, e) && Finishes(e)
    ensures Step(Accept(w, j), e).(trace := []) == Accept(Step(w, e), j).(trace := [])
  {
  }

  lemma ExitArrival(w: State, e: Event, j: Job)
    requires Enabled(w, e) && (e.IdleFire? || e.Unregister? || e.Remove?)
    ensures Step(Accept(w, j), e).(trace := []) == Accept(Step(w, e), j).(trace := [])
  {
  }

  lemma WorkArrival(w: State, e: Event, j: Job)
    requires Enabled(w, e) && (e.Minted? || e.StartOk? || e.Answered?)
    ensures Step(Accept(w, j), e).(trace := []) == Accept(Step(w, e), j).(trace := [])
  {
  }

  lemma SetupArrival(w: State, e: Event, j: Job)
    requires Enabled(w, e) && (e.WsOk? || e.PreOk? || e.CtxOk?)
    ensures Step(Accept(w, j), e).(trace := []) == Accept(Step(w, e), j).(trace := [])
  {
  }

  lemma LedgerAfter(w: State, e: Event, j: Job)
    requires Enabled(w, e)
    ensures Read(Accept(Step(w, e), j).trace) == Book(StepLedger(w, e, Read(w.trace)), Sent(j))
  {
    StepRead(w, e);
    ReadPush(Step(w, e).trace, Sent(j));
  }

  lemma LedgerBefore(w: State, e: Event, j: Job)
    requires Enabled(w, e) && Enabled(Accept(w, j), e)
    ensures Read(Step(Accept(w, j), e).trace) == StepLedger(Accept(w, j), e, Book(Read(w.trace), Sent(j)))
  {
    StepRead(Accept(w, j), e);
    ReadPush(w.trace, Sent(j));
  }

  lemma ArrivalLedger(w: State, e: Event, j: Job, l: Ledger)
    requires Enabled(w, e)
    ensures StepLedger(Accept(w, j), e, Book(l, Sent(j))) == Book(StepLedger(w, e, l), Sent(j))
  {
  }

  // ---- an iteration as moves of the whole system ----

  function LocalMoves(w: nat, es: seq<Event>): seq<Move> {
    seq(|es|, i requires 0 <= i < |es| => Local(w, es[i]))
  }

  /** The token of an iteration is minted exactly when the API is configured, and is a fresh one. */
  predicate TokensFit(es: seq<Event>, s: System) {
    forall e <- es :: e.Minted? ==> (e.token != "" <==> s.api) && e.token !in s.reg
  }

  predicate OneMint(es: seq<Event>) {
    && Event.Remove !in es
    && forall i, k :: 0 <= i < k < |es| && es[k].Minted? ==> !es[i].Minted? && !es[i].StartErr? && !es[i].Unregister?
  }

  /** Until a token is minted the registry is as it was. */
  lemma {:induction false} UntouchedRegistry(w: State, reg: map<string, Key>, es: seq<Event>)
    requires CanWalk(w, es) && forall e <- es :: !e.Minted? && !e.StartErr? && !e.Unregister?
    ensures WalkReg(w, reg, es) == reg
    decreases |es|
  {
    if es != [] {
      UntouchedRegistry(w, reg, es[..|es| - 1]);
    }
  }

  lemma {:induction false} RunAppend(s: System, ms: seq<Move>, m: Move)
    requires Valid(s, ms) && CanMove(Run(s, ms), m)
    ensures Valid(s, ms + [m]) && Run(s, ms + [m]) == Do(Run(s, ms), m)
    decreases |ms|
  {
    if ms == [] {
      assert [] + [m] == [m] && [m][1..] == [];
    } else {
      RunAppend(Do(s, ms[0]), ms[1..], m);
      assert (ms + [m])[1..] == ms[1..] + [m];
    }
  }

  /** A walk of one worker is a run of the system that touches that worker and the registry only. */
  lemma {:induction false} WalkIsRun(s: System, w: nat, es: seq<Event>)
    requires w < |s.pool| && CanWalk(s.pool[w], es) && TokensFit(es, s) && OneMint(es)
    ensures Valid(s, LocalMoves(w, es))
    ensures Run(s, LocalMoves(w, es)) == s.(pool := s.pool[w := Walk(s.pool[w], es)], reg := WalkReg(s.pool[w], s.reg, es))
    decreases |es|
  {
    if es == [] {
      assert LocalMoves(w, es) == [];
      assert s.pool[w := s.pool[w]] == s.pool;
    } else {
      var n := |es| - 1;
      var front, e := es[..n], es[n];
      FrontFits(es, s);
      WalkLast(s.pool[w], s.reg, es);
      WalkIsRun(s, w, front);
      if e.Minted? {
        UntouchedRegistry(s.pool[w], s.reg, front);
      }
      OneMoreLocal(s, w, LocalMoves(w, front), Walk(s.pool[w], front), WalkReg(s.pool[w], s.reg, front), e);
      LocalMovesPush(w, es);
    }
  }

  lemma LocalMovesPush(w: nat, es: seq<Event>)
    requires es != []
    ensures LocalMoves(w, es) == LocalMoves(w, es[..|es| - 1]) + [Local(w, es[|es| - 1])]
  {
  }

  lemma WalkLast(w: State, reg: map<string, Key>, es: seq<Event>)
    requires CanWalk(w, es) && es != []
    ensures var front, e := es[..|es| - 1], es[|es| - 1];
            && CanWalk(w, front) && Enabled(Walk(w, front), e)
            && Walk(w, es) == Step(Walk(w, front), e)
            && WalkReg(w, reg, es) == RegStep(Walk(w, front), e, WalkReg(w, reg, front))
  {
  }

  lemma FrontFits(es: seq<Event>, s: System)
    requires es != [] && TokensFit(es, s) && OneMint(es)
    ensures var front, e := es[..|es| - 1], es[|es| - 1];
            && TokensFit(front, s) && OneMint(front) && !e.Remove?
            && (e.Minted? ==> (e.token != "" <==> s.api) && e.token !in s.reg)
            && (e.Minted? ==> forall f <- front :: !f.Minted? && !f.StartErr? && !f.Unregister?)
  {
    var e := es[|es| - 1];
    assert e in es;
  }

  lemma OneMoreLocal(s: System, w: nat, ms: seq<Move>, x: State, reg: map<string, Key>, e: Event)
    requires w < |s.pool| && Valid(s, ms) && Run(s, ms) == s.(pool := s.pool[w := x], reg := reg)
    requires Enabled(x, e) && !e.Remove? && (e.Minted? ==> (e.token != "" <==> s.api) && e.token !in reg)
    ensures Valid(s, ms + [Local(w, e)])
    ensures Run(s, ms + [Local(w, e)]) == s.(pool := s.pool[w := Step(x, e)], reg := RegStep(x, e, reg))
  {
    LocalDo(s, w, x, reg, e);
    RunAppend(s, ms, Local(w, e));
  }

  lemma LocalDo(s: System, w: nat, x: State, reg: map<string, Key>, e: Event)
    requires w < |s.pool| && Enabled(x, e) && !e.Remove? && (e.Minted? ==> (e.token != "" <==> s.api) && e.token !in reg)
    ensures var s' := s.(pool := s.pool[w := x], reg := reg);
            && CanMove(s', Local(w, e))
            && Do(s', Local(w, e)) == s.(pool := s.pool[w := Step(x, e)], reg := RegStep(x, e, reg))
  {
    assert s.pool[w := x][w := Step(x, e)] == s.pool[w := Step(x, e)];
  }

  lemma PathFits(live: bool, o: Outcome, s: System)
    requires (o.token != "" <==> s.api) && o.token !in s.reg
    ensures TokensFit(Path(live, o), s) && OneMint(Path(live, o))
  {
    PathHasOneMint(live, o);
    forall e <- Path(live, o) | e.Minted? ensures e.token == o.token {
    }
  }

  lemma PathHasOneMint(live: bool, o: Outcome)
    ensures OneMint(Path(live, o))
  {
  }

  // ---- the scheduler object ----

  /** The worker map and its critical sections; `pool` lists every worker ever created. */
  class SchedulerObject {
    const ctxReg: Registry
    const api: bool
    var workers: map<string, ThreadWorker>
    ghost var pool: seq<ThreadWorker>

    constructor (ctxReg: Registry, api: bool)
      ensures this.ctxReg == ctxReg && this.api == api
      ensures ctxReg.m == map[] ==> Represents(Init(api))
    {
      this.ctxReg, this.api := ctxReg, api;
      workers := map[];
      pool := [];
    }

    /** The objects show the state of module Scheduler; the program counters and the senders are not in any object. */
    ghost predicate Represents(s: System)
      reads this, pool, ctxReg
    {
      && s.api == api && s.reg == ctxReg.m
      && |s.pool| == |pool|
      && (forall i, j :: 0 <= i < j < |pool| ==> pool[i] != pool[j])
      && (forall i :: 0 <= i < |pool| ==> pool[i].ctxReg == ctxReg && pool[i].api == api)
      && (forall i :: 0 <= i < |pool| ==> pool[i].Model(s.pool[i].pc) == s.pool[i])
      && workers.Keys == s.workers.Keys
      && (forall ks <- workers :: s.workers[ks] < |pool| && workers[ks] == pool[s.workers[ks]])
    }

    method IsThreadBound(teamID: string, channelID: string, rootThreadTS: string, ghost s: System) returns (bound: bool)
      requires Represents(s)
      ensures bound == ThreadBound(s, Key(teamID, channelID, rootThreadTS))
    {
      var k := Key(teamID, channelID, rootThreadTS);
      bound := k.String() in workers;
    }

    /** Enqueue's critical section: the thread's worker, created if there is none. */
    method Pick(job: Job, ghost s: System) returns (w: ThreadWorker)
      requires Represents(s) && CanMove(s, Lookup(job))
      modifies this
      ensures Represents(Do(s, Lookup(job)))
      ensures w == pool[Do(s, Lookup(job)).held[job]]
      ensures old(pool) <= pool
    {
      var ks := job.key.String();
      if ks in workers {
        w := workers[ks];
      } else {
        w := new ThreadWorker(job.key, ctxReg, api);
        workers := workers[ks := w];
        pool := pool + [w];
      }
    }

    /** The channel send that ends Enqueue, on the worker picked before; false if it would block. */
    method Deliver(w: ThreadWorker, job: Job, ghost s: System) returns (sent: bool)
      requires Represents(s) && job in s.held && s.held[job] < |pool| && w == pool[s.held[job]]
      modifies w
      ensures sent <==> CanMove(s, Send(job))
      ensures Represents(if sent then Do(s, Send(job)) else s)
    {
      sent := w.Offer(job);
    }

    /** One loop iteration of one of the workers. */
    method Iterate(w: ThreadWorker, o: Outcome, ghost i: nat, ghost s: System)
      requires Represents(s) && i < |pool| && w == pool[i]
      requires s.pool[i].pc.Select? && w.jobs != [] && w.prov == w.ws
      requires (o.token != "" <==> s.api) && o.token !in s.reg
      modifies w, ctxReg
      ensures Valid(s, LocalMoves(i, Path(old(w.prov), o)))
      ensures Represents(Run(s, LocalMoves(i, Path(old(w.prov), o))))
    {
      ghost var es := Path(w.prov, o);
      w.HandleJob(o);
      PathFits(old(w.prov), o, s);
      WalkIsRun(s, i, es);
    }

    /** The idle arm of one of the workers: the loop is left, and messages still in the channel stay there. */
    method IdleFire(w: ThreadWorker, ghost i: nat, ghost s: System)
      requires Represents(s) && CanMove(s, Local(i, Event.IdleFire)) && w == pool[i]
      modifies w
      ensures Represents(Do(s, Local(i, Event.IdleFire)))
    {
      w.CloseIdle();
    }

    /** The worker's first deferred call. */
    method Unregister(w: ThreadWorker, ghost i: nat, ghost s: System)
      requires Represents(s) && CanMove(s, Local(i, Event.Unregister)) && w == pool[i]
      modifies w, ctxReg
      ensures Represents(Do(s, Local(i, Event.Unregister)))
    {
      w.UnregisterToken();
    }

    /** The worker's last deferred call. */
    method Remove(w: ThreadWorker, ghost i: nat, ghost s: System)
      requires Represents(s) && CanMove(s, Local(i, Event.Remove)) && w == pool[i]
      modifies this
      ensures Represents(Do(s, Local(i, Event.Remove)))
    {
      workers := workers - {w.key.String()};
    }
  }
}
