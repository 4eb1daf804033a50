/** What a worker reports: one iteration of its loop act by act, and the truth of every reported outcome. */
module WorkerReports {
  import opened Session
  import opened Worker
  import opened WorkerInv
  import opened Scheduler
  import opened SchedulerInv
  import opened SchedulerTheorems
  import opened WorkerObject

  // ---- one iteration, in terms of how the external calls turn out ----

  function Opt(c: bool, a: Act): seq<Act> {
    if c then [a] else []
  }

  /** What is created for a session, and given back if that fails half-way. */
  function SetupActs(job: Job, o: Outcome): seq<Act> {
    if !o.wsOk then []
    else if !o.preOk then [WsCreated, WsCleaned]
    else if o.startOk then [WsCreated] + Opt(o.token != "", TokenIn(o.token)) + [ProvStarted(job)]
    else [WsCreated] + Opt(o.token != "", TokenIn(o.token)) + Opt(o.token != "", TokenOut(o.token)) + [WsCleaned]
  }

  /** The opening that is still to be sent, or nothing. */
  function OpeningDue(w: State): string
    requires w.queue != []
  {
    if !w.prov then w.queue[0].opening else if w.bootDone then "" else w.body
  }

  function PromptActs(w: State, o: Outcome): seq<Act>
    requires w.queue != []
  {
    var job := w.queue[0];
    Opt(Up(w.prov, o) && o.ctxOk,
        Prompted(Prompt(job, if OpeningDue(w) != "" then OpeningDue(w) else job.text, o.promptOk)))
  }

  /** All that one iteration does, in order: the session if there is none, the prompt, the report. */
  function IterationActs(w: State, o: Outcome): seq<Act>
    requires w.queue != []
  {
    (if w.prov then [] else SetupActs(w.queue[0], o)) + PromptActs(w, o) + [Done(w.queue[0], Succeeds(w.prov, o))]
  }

  /** The worker after one iteration. */
  function AfterIteration(w: State, o: Outcome): State
    requires w.queue != []
  {
    var up, begun := Up(w.prov, o), !w.prov && Up(w.prov, o);
    State(w.key, w.queue[1..], Select, up, up, true,
          if begun then o.token else w.token,
          if begun then w.queue[0].opening else w.body,
          (!begun && w.bootDone) || (Succeeds(w.prov, o) && OpeningDue(w) != ""),
          w.trace + IterationActs(w, o))
  }

  predicate Ready(w: State) {
    w.pc.Select? && w.queue != [] && w.prov == w.ws
  }

  /** The machine's walk through one iteration, whatever the outcomes: state, acts and report. */
  lemma IterationResult(w: State, reg: map<string, Key>, o: Outcome)
    requires Ready(w)
    ensures CanWalk(w, Path(w.prov, o)) && Walk(w, Path(w.prov, o)) == AfterIteration(w, o)
    ensures o.token !in reg ==>
              WalkReg(w, reg, Path(w.prov, o)) == if !w.prov && Up(w.prov, o) && o.token != "" then reg[o.token := w.key] else reg
  {
    if Up(w.prov, o) {
      PromptedPath(w, reg, w.prov, o);
      if w.prov {
        LiveResult(w, o);
      } else {
        OpenedResult(w, o);
      }
    } else if o.wsOk && o.preOk {
      StartPath(w, reg, o);
      StartFailed(w, o);
    } else {
      OpenPath(w, reg, o);
      OpenFailed(w, o);
    }
  }

  lemma LiveResult(w: State, o: Outcome)
    requires Ready(w) && w.prov
    ensures AfterIteration(w, o) ==
            if !o.ctxOk then Step(BeforePrompt(w, o), CtxErr)
            else Step(Step(Step(BeforePrompt(w, o), CtxOk), Answered(o.promptOk)), Replied)
  {
    assert [] + PromptActs(w, o) == PromptActs(w, o);
    Push2(w.trace, PromptActs(w, o), Done(w.queue[0], Succeeds(true, o)));
  }

  lemma Push2(t: seq<Act>, a: seq<Act>, d: Act)
    ensures t + (a + [d]) == (t + a) + [d]
    ensures t + [] == t
  {
  }

  lemma OpenedResult(w: State, o: Outcome)
    requires Ready(w) && !w.prov && Up(false, o)
    ensures AfterIteration(w, o) ==
            if !o.ctxOk then Step(BeforePrompt(w, o), CtxErr)
            else Step(Step(Step(BeforePrompt(w, o), CtxOk), Answered(o.promptOk)), Replied)
  {
    var x, job := BeforePrompt(w, o), w.queue[0];
    OpenedState(w, o);
    assert w.trace + IterationActs(w, o) == x.trace + PromptActs(w, o) + [Done(job, Succeeds(false, o))];
    PromptedResult(x, job, o);
    assert x.trace + [] == x.trace;
  }

  lemma OpenedState(w: State, o: Outcome)
    requires Ready(w) && !w.prov && Up(false, o)
    ensures BeforePrompt(w, o) ==
            State(w.key, w.queue[1..], ApplyCtx(w.queue[0]), true, true, false, o.token, w.queue[0].opening, false,
                  w.trace + SetupActs(w.queue[0], o))
  {
    var t := w.trace;
    assert t + [WsCreated] + [] == t + [WsCreated];
    assert t + ([WsCreated] + Opt(o.token != "", TokenIn(o.token)) + [ProvStarted(w.queue[0])]) ==
           t + [WsCreated] + Opt(o.token != "", TokenIn(o.token)) + [ProvStarted(w.queue[0])];
  }

  lemma PromptedResult(x: State, job: Job, o: Outcome)
    requires x.pc == ApplyCtx(job) && !x.bootDone
    ensures var body := if x.body != "" then x.body else job.text;
            var y := if !o.ctxOk then Step(x, CtxErr)
                     else Step(Step(Step(x, CtxOk), Answered(o.promptOk)), Replied);
            y == x.(pc := Select, idle := true, bootDone := o.ctxOk && o.promptOk && x.body != "",
                    trace := x.trace + Opt(o.ctxOk, Prompted(Prompt(job, body, o.promptOk))) + [Done(job, o.ctxOk && o.promptOk)])
  {
    assert x.trace + [] == x.trace;
  }

  lemma StartFailed(w: State, o: Outcome)
    requires Ready(w) && !w.prov && o.wsOk && o.preOk && !o.startOk
    ensures AfterIteration(w, o) == Step(BeforeStart(w, o), StartErr)
  {
    var t := w.trace;
    assert t + [WsCreated] + [] == t + [WsCreated];
    assert w.trace + IterationActs(w, o) ==
           t + [WsCreated] + Opt(o.token != "", TokenIn(o.token)) + Opt(o.token != "", TokenOut(o.token)) + [WsCleaned]
           + [Done(w.queue[0], false)];
  }

  lemma OpenFailed(w: State, o: Outcome)
    requires Ready(w) && !w.prov && !(o.wsOk && o.preOk)
    ensures AfterIteration(w, o) ==
            if !o.wsOk then Step(Step(w, Recv), WsErr) else Step(Step(Step(w, Recv), WsOk), PreErr)
  {
    assert w.trace + IterationActs(w, o) ==
           if !o.wsOk then w.trace + [Done(w.queue[0], false)]
           else w.trace + [WsCreated] + [WsCleaned] + [Done(w.queue[0], false)];
  }

  /** What the idle arm and the deferred unregister do, in order. */
  lemma IdleActs(w: State)
    requires w.pc.Select? && w.idle
    ensures var x := Step(Step(w, IdleFire), Unregister);
            && x.trace == w.trace + Opt(w.prov, ProvClosed) + Opt(w.ws, WsCleaned) + Opt(w.token != "", TokenOut(w.token))
            && !x.prov && !x.ws && x.queue == w.queue
  {
    assert w.trace + [] == w.trace;
  }

  // ---- over every run: a reported outcome is true ----

  lemma CountMore<T>(t: seq<T>, a: T, x: T)
    ensures multiset(t + [a])[x] == multiset(t)[x] + if a == x then 1 else 0
  {
  }

  lemma BookReports(l: Ledger, a: Act, j: Job)
    ensures multiset(Book(l, a).wins)[j] == multiset(l.wins)[j] + if a == Done(j, true) then 1 else 0
    ensures multiset(Book(l, a).dones)[j] == multiset(l.dones)[j] + if a == Done(j, true) || a == Done(j, false) then 1 else 0
  {
    if a.Done? {
      CountMore(l.wins, a.job, j);
      CountMore(l.dones, a.job, j);
    }
  }

  lemma {:induction false} TraceReports(t: seq<Act>, j: Job)
    ensures multiset(t)[Done(j, true)] == multiset(Read(t).wins)[j]
    ensures multiset(t)[Done(j, true)] + multiset(t)[Done(j, false)] == multiset(Read(t).dones)[j]
  {
    if t != [] {
      var n := |t| - 1;
      TraceReports(t[..n], j);
      BookReports(Read(t[..n]), t[n], j);
      CountMore(t[..n], t[n], Done(j, true));
      CountMore(t[..n], t[n], Done(j, false));
      assert t == t[..n] + [t[n]];
    }
  }

  lemma {:induction false} TracePrompts(t: seq<Act>, p: Prompt)
    ensures Prompted(p) in t <==> p in Read(t).prompts
  {
    if t != [] {
      var n := |t| - 1;
      TracePrompts(t[..n], p);
      assert t == t[..n] + [t[n]];
    }
  }

  lemma {:induction false} WinnersHas(ps: seq<Prompt>, j: Job)
    ensures j in Winners(ps) <==> exists p :: p in ps && p.job == j && p.ok
  {
    if ps != [] {
      var n := |ps| - 1;
      WinnersHas(ps[..n], j);
      assert ps == ps[..n] + [ps[n]];
      assert ps[n] in ps;
    }
  }

  /** A worker reports success for a job, met once, exactly if a prompt for that job succeeded. */
  lemma ReportIsTrue(w: State, j: Job, ok: bool)
    requires Inv(w) && multiset(Read(w.trace).sents)[j] <= 1 && Done(j, ok) in w.trace
    ensures ok <==> exists p :: Prompted(p) in w.trace && p.job == j && p.ok
  {
    var l := Read(w.trace);
    TraceReports(w.trace, j);
    assert multiset(w.trace)[Done(j, ok)] > 0;
    SentSplit(w, j);
    assert j !in WinInHand(w);
    assert multiset(l.wins + WinInHand(w))[j] == multiset(l.wins)[j];
    assert j in Winners(l.prompts) <==> j in l.wins;
    WinnersHas(l.prompts, j);
    forall p ensures Prompted(p) in w.trace <==> p in l.prompts {
      TracePrompts(w.trace, p);
    }
  }

  /** Over every run of the whole system: what is reported for a job is what its prompt came to. */
  lemma ReportsAreTrue(api: bool, ms: seq<Move>, w: nat, j: Job, ok: bool)
    requires Valid(Init(api), ms) && w < |Run(Init(api), ms).pool| && Done(j, ok) in Run(Init(api), ms).pool[w].trace
    ensures var t := Run(Init(api), ms).pool[w].trace;
            ok <==> exists p :: Prompted(p) in t && p.job == j && p.ok
  {
    var s := Run(Init(api), ms);
    ReachableInv(api, ms);
    SentOnce(s, j, w);
    ReportIsTrue(s.pool[w], j, ok);
  }
}
