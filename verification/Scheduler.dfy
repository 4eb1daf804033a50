/**
 The scheduler of internal/scheduler/scheduler.go under interleaving. A move is one atomic step: a
 sender's critical section in Enqueue, a sender's channel send, or one event of one worker.
 */
module Scheduler {
  import opened Session
  import opened Worker
  import opened WorkerInv

  /** make(chan Job, 256) */
  const CHANNEL_CAPACITY := 256

  /** `pool` holds every worker ever created; `held` the jobs whose Enqueue has picked a worker but not sent yet. */
  datatype System = System(
    api: bool,                    // the context API is configured
    workers: map<string, nat>,
    pool: seq<State>,
    held: map<Job, nat>,
    reg: map<string, Key>,
    issued: set<Job>)             // jobs for which Enqueue was called

  function Init(api: bool): System {
    System(api, map[], [], map[], map[], {})
  }

  datatype Move =
    | Lookup(job: Job)
    | Send(job: Job)
    | Local(w: nat, e: Event)

  /** A token is minted exactly when the API is configured, and random tokens do not collide with registered ones. */
  predicate CanMove(s: System, m: Move) {
    match m
    case Lookup(j) => j !in s.issued
    case Send(j) => j in s.held && s.held[j] < |s.pool| && |s.pool[s.held[j]].queue| < CHANNEL_CAPACITY
    case Local(w, e) =>
      && w < |s.pool|
      && Enabled(s.pool[w], e)
      && (e.Minted? ==> (e.token != "" <==> s.api) && e.token !in s.reg)
  }

  function Do(s: System, m: Move): System
    requires CanMove(s, m)
  {
    match m
    case Lookup(j) =>
      var ks := j.key.String();
      if ks in s.workers then
        s.(held := s.held[j := s.workers[ks]], issued := s.issued + {j})
      else
        s.(workers := s.workers[ks := |s.pool|], pool := s.pool + [NewWorker(j.key)],
           held := s.held[j := |s.pool|], issued := s.issued + {j})
    case Send(j) =>
      var w := s.held[j];
      s.(pool := s.pool[w := Accept(s.pool[w], j)], held := s.held - {j})
    case Local(w, e) =>
      s.(pool := s.pool[w := Step(s.pool[w], e)],
         reg := RegStep(s.pool[w], e, s.reg),
         workers := if e.Remove? then s.workers - {s.pool[w].key.String()} else s.workers)
  }

  predicate Valid(s: System, ms: seq<Move>)
    decreases |ms|
  {
    ms == [] || (CanMove(s, ms[0]) && Valid(Do(s, ms[0]), ms[1..]))
  }

  function Run(s: System, ms: seq<Move>): System
    requires Valid(s, ms)
    decreases |ms|
  {
    if ms == [] then s else Run(Do(s, ms[0]), ms[1..])
  }

  // ---- the system invariant, over what the rest of the system can see of each worker ----

  datatype View = View(key: Key, gone: bool, token: string, sents: seq<Job>) {
    function Name(): string {
      key.String()
    }
  }

  function ViewOf(w: State): View {
    View(w.key, w.pc.Gone?, LiveToken(w), Read(w.trace).sents)
  }

  function Views(pool: seq<State>): seq<View> {
    seq(|pool|, i requires 0 <= i < |pool| => ViewOf(pool[i]))
  }

  function SentBag(vs: seq<View>): multiset<Job> {
    if vs == [] then multiset{} else SentBag(vs[..|vs| - 1]) + multiset(vs[|vs| - 1].sents)
  }

  predicate WorkersOk(pool: seq<State>) {
    forall w :: 0 <= w < |pool| ==> Inv(pool[w])
  }

  /** The map holds exactly the workers that have not run their deferred remove, each under its own key. */
  predicate MapExact(workers: map<string, nat>, vs: seq<View>) {
    && (forall ks <- workers :: workers[ks] < |vs| && vs[workers[ks]].Name() == ks && !vs[workers[ks]].gone)
    && (forall w :: 0 <= w < |vs| && !vs[w].gone ==> vs[w].Name() in workers && workers[vs[w].Name()] == w)
  }

  /** A job only ever meets workers of its own key. */
  predicate Routed(held: map<Job, nat>, vs: seq<View>) {
    && (forall j <- held :: held[j] < |vs| && vs[held[j]].Name() == j.key.String())
    && (forall w, j :: 0 <= w < |vs| && j in vs[w].sents ==> vs[w].Name() == j.key.String())
  }

  /** Every issued job is held by its sender or went into one channel, once. */
  predicate Conserved(held: set<Job>, vs: seq<View>, issued: set<Job>) {
    multiset(held) + SentBag(vs) == multiset(issued)
  }

  /** The registry lists exactly the live tokens, each with its holder's key; no two workers share one. */
  predicate RegExact(vs: seq<View>, reg: map<string, Key>) {
    && "" !in reg
    && (forall w :: 0 <= w < |vs| && vs[w].token != "" ==> vs[w].token in reg && reg[vs[w].token] == vs[w].key)
    && (forall t <- reg :: exists w :: 0 <= w < |vs| && vs[w].token == t)
    && (forall v, w :: 0 <= v < w < |vs| && vs[v].token != "" ==> vs[v].token != vs[w].token)
  }

  predicate SysInv(s: System) {
    var vs := Views(s.pool);
    && WorkersOk(s.pool)
    && MapExact(s.workers, vs)
    && Routed(s.held, vs)
    && Conserved(s.held.Keys, vs, s.issued)
    && RegExact(vs, s.reg)
  }
}
