/** What the scheduler promises after any run: bindings, the fate of every job, and which jobs can still complete. */
module SchedulerTheorems {
  import opened Session
  import opened Worker
  import opened WorkerInv
  import opened Scheduler
  import opened SchedulerInv

  // ---- thread bindings ----

  predicate ThreadBound(s: System, k: Key) {
    k.String() in s.workers
  }

  /** A thread counts as bound while, and only while, some worker of its key has not left; there is never a second one. */
  lemma BoundIffWorker(s: System, k: Key)
    requires SysInv(s)
    ensures ThreadBound(s, k) <==>
            exists w :: 0 <= w < |s.pool| && s.pool[w].key.String() == k.String() && !s.pool[w].pc.Gone?
    ensures forall v, w :: 0 <= v < |s.pool| && 0 <= w < |s.pool| &&
                           s.pool[v].key.String() == s.pool[w].key.String() && !s.pool[v].pc.Gone? && !s.pool[w].pc.Gone?
                           ==> v == w
  {
    var vs := Views(s.pool);
    assert forall w :: 0 <= w < |s.pool| ==> vs[w].Name() == s.pool[w].key.String() && vs[w].gone == s.pool[w].pc.Gone?;
    if ThreadBound(s, k) {
      var w := s.workers[k.String()];
      assert vs[w].Name() == k.String() && !vs[w].gone;
    }
  }

  /** The deferred remove takes out the worker's own entry and no other. */
  lemma RemoveTakesOwnEntry(s: System, w: nat)
    requires SysInv(s) && CanMove(s, Local(w, Remove))
    ensures var name, s' := s.pool[w].key.String(), Do(s, Local(w, Remove));
            && name in s.workers && s.workers[name] == w
            && s'.workers.Keys == s.workers.Keys - {name}
            && forall ks <- s'.workers :: s'.workers[ks] == s.workers[ks] != w
  {
    EntryOf(s.workers, s.pool, w);
    RemoveIs(s, w);
    assert Do(s, Local(w, Remove)).workers == s.workers - {s.pool[w].key.String()};
    WithoutEntry(s.workers, s.pool[w].key.String(), w);
  }

  lemma WithoutEntry(workers: map<string, nat>, name: string, w: nat)
    requires name in workers && forall ks <- workers :: ks != name ==> workers[ks] != w
    ensures (workers - {name}).Keys == workers.Keys - {name}
    ensures forall ks <- workers - {name} :: (workers - {name})[ks] == workers[ks] != w
  {
  }

  lemma EntryOf(workers: map<string, nat>, pool: seq<State>, w: nat)
    requires MapExact(workers, Views(pool)) && w < |pool| && !pool[w].pc.Gone?
    ensures var name := pool[w].key.String();
            name in workers && workers[name] == w && forall ks <- workers :: ks != name ==> workers[ks] != w
  {
    var vs := Views(pool);
    assert !vs[w].gone && vs[w].Name() == pool[w].key.String();
    OwnEntry(workers, vs, w);
  }

  lemma RemoveIs(s: System, w: nat)
    requires CanMove(s, Local(w, Remove))
    ensures Do(s, Local(w, Remove)).workers == s.workers - {s.pool[w].key.String()}
  {
  }

  lemma OwnEntry(workers: map<string, nat>, vs: seq<View>, w: nat)
    requires MapExact(workers, vs) && w < |vs| && !vs[w].gone
    ensures vs[w].Name() in workers && workers[vs[w].Name()] == w
    ensures forall ks <- workers :: ks != vs[w].Name() ==> workers[ks] != w
  {
  }

  // ---- the fate of a job ----

  datatype Fate = HeldBySender | Queued(w: nat) | Running(w: nat) | Finished(w: nat) | Stranded(w: nat)

  predicate HasFate(s: System, j: Job, f: Fate) {
    match f
    case HeldBySender => j in s.held
    case Queued(w) => w < |s.pool| && j in s.pool[w].queue && !s.pool[w].pc.Leaving()
    case Running(w) => w < |s.pool| && j in s.pool[w].pc.InHand()
    case Finished(w) => w < |s.pool| && j in Read(s.pool[w].trace).dones
    case Stranded(w) => w < |s.pool| && j in s.pool[w].queue && s.pool[w].pc.Leaving()
  }

  lemma {:induction false} BagMember(vs: seq<View>, w: nat, j: Job)
    requires w < |vs|
    ensures SentBag(vs)[j] >= multiset(vs[w].sents)[j]
  {
    if w < |vs| - 1 {
      BagMember(vs[..|vs| - 1], w, j);
    }
  }

  lemma {:induction false} BagTwo(vs: seq<View>, v: nat, w: nat, j: Job)
    requires v < w < |vs|
    ensures SentBag(vs)[j] >= multiset(vs[v].sents)[j] + multiset(vs[w].sents)[j]
  {
    if w < |vs| - 1 {
      BagTwo(vs[..|vs| - 1], v, w, j);
    } else {
      BagMember(vs[..|vs| - 1], v, j);
    }
  }

  lemma {:induction false} BagFind(vs: seq<View>, j: Job) returns (w: nat)
    requires j in SentBag(vs)
    ensures w < |vs| && j in vs[w].sents
  {
    var n := |vs| - 1;
    if j in vs[n].sents {
      w := n;
    } else {
      assert j in SentBag(vs[..n]);
      w := BagFind(vs[..n], j);
    }
  }

  /** A job's place among one worker's sends, split by where the worker has got to. */
  lemma SentSplit(w: State, j: Job)
    requires Inv(w)
    ensures var l := Read(w.trace);
            multiset(l.sents)[j] == multiset(l.dones)[j] + multiset(w.pc.InHand())[j] + multiset(w.queue)[j]
  {
    var l := Read(w.trace);
    assert multiset(l.sents) == multiset(l.dones) + multiset(w.pc.InHand()) + multiset(w.queue);
  }

  /** Held or sent, once; and sent to one worker only. */
  predicate PlacedOnce(held: set<Job>, vs: seq<View>, issued: set<Job>, j: Job) {
    && (j in issued <==> j in held || exists w :: 0 <= w < |vs| && j in vs[w].sents)
    && (forall w :: 0 <= w < |vs| && j in vs[w].sents ==> j !in held && multiset(vs[w].sents)[j] == 1)
    && (forall v, w :: 0 <= v < w < |vs| && j in vs[v].sents ==> j !in vs[w].sents)
  }

  lemma Placement(held: set<Job>, vs: seq<View>, issued: set<Job>, j: Job)
    requires Conserved(held, vs, issued)
    ensures PlacedOnce(held, vs, issued, j)
  {
    assert multiset(issued)[j] == multiset(held)[j] + SentBag(vs)[j] <= 1;
    if j in issued && j !in held {
      var w := BagFind(vs, j);
    }
    forall w | 0 <= w < |vs| && j in vs[w].sents ensures j in issued && j !in held && multiset(vs[w].sents)[j] == 1 {
      BagMember(vs, w, j);
    }
    forall v, w | 0 <= v < w < |vs| && j in vs[v].sents ensures j !in vs[w].sents {
      BagTwo(vs, v, w, j);
    }
  }

  /** Where the worker a job was sent to stands with it. */
  function FateAt(s: System, j: Job, w: nat): Fate
    requires w < |s.pool|
  {
    if j in Read(s.pool[w].trace).dones then Finished(w)
    else if j in s.pool[w].pc.InHand() then Running(w)
    else if s.pool[w].pc.Leaving() then Stranded(w)
    else Queued(w)
  }

  /** The only fate a job can have at a worker it was sent to. */
  lemma FateOfSent(s: System, j: Job, f: Fate)
    requires SysInv(s) && HasFate(s, j, f) && !f.HeldBySender?
    ensures j in Views(s.pool)[f.w].sents && f == FateAt(s, j, f.w)
  {
    SentOnce(s, j, f.w);
    assert Inv(s.pool[f.w]) && Views(s.pool)[f.w].sents == Read(s.pool[f.w].trace).sents;
    FateThere(s, j, f);
  }

  lemma FateThere(s: System, j: Job, f: Fate)
    requires HasFate(s, j, f) && !f.HeldBySender? && Inv(s.pool[f.w])
    requires multiset(Read(s.pool[f.w].trace).sents)[j] <= 1
    ensures j in Read(s.pool[f.w].trace).sents && f == FateAt(s, j, f.w)
  {
    var x := s.pool[f.w];
    SentSplit(x, j);
    OnePlace(Read(x.trace).dones, x.pc.InHand(), x.queue, j);
  }

  lemma SentOnce(s: System, j: Job, w: nat)
    requires SysInv(s) && w < |s.pool|
    ensures multiset(Read(s.pool[w].trace).sents)[j] <= 1
  {
    Placement(s.held.Keys, Views(s.pool), s.issued, j);
    assert Views(s.pool)[w].sents == Read(s.pool[w].trace).sents;
  }

  lemma OnePlace(d: seq<Job>, h: seq<Job>, q: seq<Job>, j: Job)
    requires multiset(d)[j] + multiset(h)[j] + multiset(q)[j] <= 1
    ensures j in d ==> j !in h && j !in q
    ensures j in h ==> j !in d && j !in q
    ensures j in q ==> j !in d && j !in h
  {
  }

  lemma SentHasFate(s: System, j: Job, w: nat)
    requires SysInv(s) && w < |s.pool| && j in Views(s.pool)[w].sents
    ensures HasFate(s, j, FateAt(s, j, w))
  {
    SentSplit(s.pool[w], j);
  }

  /** Conservation: an issued job has exactly one fate, and a job that was never issued has none. */
  lemma OneFate(s: System, j: Job) returns (f: Fate)
    requires SysInv(s)
    ensures j in s.issued ==> HasFate(s, j, f) && forall g :: HasFate(s, j, g) ==> g == f
    ensures j !in s.issued ==> forall g :: !HasFate(s, j, g)
  {
    f := FateOf(s, j);
    forall g | HasFate(s, j, g) ensures j in s.issued && g == f {
      SameFate(s, j, f, g);
    }
  }

  lemma FateOf(s: System, j: Job) returns (f: Fate)
    requires SysInv(s)
    ensures j in s.issued ==> HasFate(s, j, f)
  {
    var vs := Views(s.pool);
    Placement(s.held.Keys, vs, s.issued, j);
    f := HeldBySender;
    if j !in s.held && j in s.issued {
      var w :| 0 <= w < |vs| && j in vs[w].sents;
      SentHasFate(s, j, w);
      f := FateAt(s, j, w);
    }
  }

  lemma SameFate(s: System, j: Job, f: Fate, g: Fate)
    requires SysInv(s) && HasFate(s, j, g) && (j in s.issued ==> HasFate(s, j, f))
    ensures j in s.issued && g == f
  {
    var vs := Views(s.pool);
    Placement(s.held.Keys, vs, s.issued, j);
    if !g.HeldBySender? {
      FateOfSent(s, j, g);
    }
    if !f.HeldBySender? {
      FateOfSent(s, j, f);
    }
    if !g.HeldBySender? && !f.HeldBySender? {
      SentToOne(s.held.Keys, vs, s.issued, j, g.w, f.w);
    }
  }

  lemma SentToOne(held: set<Job>, vs: seq<View>, issued: set<Job>, j: Job, v: nat, w: nat)
    requires PlacedOnce(held, vs, issued, j) && v < |vs| && w < |vs| && j in vs[v].sents
    ensures j in issued && j !in held
    ensures j in vs[w].sents ==> v == w
  {
  }

  /** Done is called at most once for a job, by at most one worker, and at most one prompt is issued for it. */
  lemma DoneOnce(s: System, j: Job, w: nat)
    requires SysInv(s) && w < |s.pool|
    ensures multiset(Read(s.pool[w].trace).dones)[j] <= 1
    ensures multiset(PromptJobs(Read(s.pool[w].trace).prompts))[j] <= 1
    ensures j in Read(s.pool[w].trace).dones ==>
              forall v :: 0 <= v < |s.pool| && v != w ==> j !in Read(s.pool[v].trace).dones
  {
    Placement(s.held.Keys, Views(s.pool), s.issued, j);
    SentSplit(s.pool[w], j);
    PromptedWithinSent(s.pool[w], j);
    assert multiset(Views(s.pool)[w].sents)[j] <= 1;
    forall v | 0 <= v < |s.pool| && v != w && j in Read(s.pool[w].trace).dones
      ensures j !in Read(s.pool[v].trace).dones
    {
      SentSplit(s.pool[v], j);
      assert j in Views(s.pool)[w].sents;
      assert j !in Views(s.pool)[v].sents;
    }
  }

  lemma PromptedWithinSent(w: State, j: Job)
    requires Inv(w)
    ensures multiset(PromptJobs(Read(w.trace).prompts))[j] <= multiset(Read(w.trace).sents)[j]
  {
    var l := Read(w.trace);
    SentSplit(w, j);
    SubsequenceCount(PromptJobs(l.prompts), Answerable(w, l), j);
    if w.pc.Reply? {
      assert w.pc.InHand() == [w.pc.job];
      assert multiset(l.dones + [w.pc.job])[j] == multiset(l.dones)[j] + multiset([w.pc.job])[j];
    }
  }

  lemma {:induction false} SubsequenceCount(a: seq<Job>, b: seq<Job>, j: Job)
    requires Subsequence(a, b)
    ensures multiset(a)[j] <= multiset(b)[j]
    decreases |b|
  {
    if a != [] {
      var m, n := |a| - 1, |b| - 1;
      assert a == a[..m] + [a[m]] && b == b[..n] + [b[n]];
      if a[m] == b[n] && Subsequence(a[..m], b[..n]) {
        SubsequenceCount(a[..m], b[..n], j);
      } else {
        SubsequenceCount(a, b[..n], j);
      }
    }
  }

  // ---- stranding ----

  /** Joining the channel or losing the worker: how one event changes a worker's queue and its being in the loop. */
  lemma QueueFlow(w: State, e: Event, j: Job)
    requires Enabled(w, e)
    ensures j in Step(w, e).queue ==> j in w.queue
    ensures Step(w, e).pc.Leaving() <==> w.pc.Leaving() || e.IdleFire?
  {
  }

  /** A job comes to be stranded in two ways only: the idle timer fires while it waits, or it is sent to a worker that already left. */
  lemma StrandingArises(s: System, m: Move, j: Job, w: nat)
    requires CanMove(s, m)
    requires HasFate(Do(s, m), j, Stranded(w)) && !HasFate(s, j, Stranded(w))
    ensures (m == Local(w, IdleFire) && HasFate(s, j, Queued(w)))
            || (m == Send(j) && s.held[j] == w && s.pool[w].pc.Leaving())
  {
    match m
    case Lookup(_) =>
    case Send(_) =>
    case Local(v, e) => QueueFlow(s.pool[v], e, j);
  }

  // ---- resources ----

  /** Between iterations a worker has a workspace exactly when it has a provider, and what it took it has given back otherwise. */
  lemma ResourceBalance(s: System, w: nat)
    requires SysInv(s) && w < |s.pool|
    ensures var x, l := s.pool[w], Read(s.pool[w].trace);
            && l.ws == One(x.ws) && l.prov == One(x.prov)
            && (x.pc.Select? ==> (x.prov <==> x.ws))
            && (x.pc.Leaving() ==> l.ws == 0 && l.prov == 0 && |l.dones| > 0)
            && (x.pc.Gone? || x.pc.Unmap? ==> l.tokensIn == l.tokensOut)
  {
    assert Inv(s.pool[w]);
  }

  /** A token goes with a provider exactly when the context API is configured. */
  predicate TokenPolicy(w: State, api: bool) {
    && (w.pc.Start? ==> (w.pc.token != "" <==> api))
    && (w.prov ==> (w.token != "" <==> api))
  }

  predicate ApiOk(s: System) {
    forall w :: 0 <= w < |s.pool| ==> TokenPolicy(s.pool[w], s.api)
  }

  lemma StepPolicy(w: State, e: Event, api: bool)
    requires Enabled(w, e) && TokenPolicy(w, api) && (e.Minted? ==> (e.token != "" <==> api))
    ensures TokenPolicy(Step(w, e), api)
  {
  }

  lemma MoveApiOk(s: System, m: Move)
    requires ApiOk(s) && CanMove(s, m)
    ensures ApiOk(Do(s, m)) && Do(s, m).api == s.api
  {
    if m.Local? {
      StepPolicy(s.pool[m.w], m.e, s.api);
    }
  }

  lemma {:induction false} RunApiOk(s: System, ms: seq<Move>)
    requires ApiOk(s) && Valid(s, ms)
    ensures ApiOk(Run(s, ms)) && Run(s, ms).api == s.api
    decreases |ms|
  {
    if ms != [] {
      MoveApiOk(s, ms[0]);
      RunApiOk(Do(s, ms[0]), ms[1..]);
    }
  }

  /** After any run: the registry maps exactly the live tokens, each to its holder's key. */
  lemma RegistryListsLiveTokens(s: System, t: string, k: Key)
    requires SysInv(s)
    ensures (t in s.reg && s.reg[t] == k) <==>
            (t != "" && exists w :: 0 <= w < |s.pool| && LiveToken(s.pool[w]) == t && s.pool[w].key == k)
  {
    var vs := Views(s.pool);
    TokenHolder(vs, s.reg, t, k);
    if t in s.reg && s.reg[t] == k {
      var w :| 0 <= w < |vs| && vs[w].token == t && vs[w].key == k;
      assert LiveToken(s.pool[w]) == t && s.pool[w].key == k;
    }
    if w :| 0 <= w < |s.pool| && LiveToken(s.pool[w]) == t && s.pool[w].key == k && t != "" {
      assert vs[w].token == t && vs[w].key == k;
    }
  }

  /** A worker between jobs has a registered token exactly when it has a provider and the API is on. */
  lemma TokenFollowsProvider(api: bool, ms: seq<Move>, w: nat)
    requires Valid(Init(api), ms)
    requires w < |Run(Init(api), ms).pool| && Run(Init(api), ms).pool[w].pc.Select?
    ensures LiveToken(Run(Init(api), ms).pool[w]) != "" <==> api && Run(Init(api), ms).pool[w].prov
  {
    var s := Run(Init(api), ms);
    ReachableInv(api, ms);
    RunApiOk(Init(api), ms);
    assert Inv(s.pool[w]) && TokenPolicy(s.pool[w], s.api);
  }

  lemma TokenHolder(vs: seq<View>, reg: map<string, Key>, t: string, k: Key)
    requires RegExact(vs, reg)
    ensures t in reg && reg[t] == k ==> t != "" && exists w :: 0 <= w < |vs| && vs[w].token == t && vs[w].key == k
  {
    if t in reg && reg[t] == k {
      var w :| 0 <= w < |vs| && vs[w].token == t;
      assert vs[w].key == k;
    }
  }

  // ---- whose jobs a worker meets ----

  predicate SlashFreeJobs(ms: seq<Move>) {
    forall m <- ms :: m.Lookup? ==> m.job.key.SlashFree()
  }

  /** Every worker was created for a slash-free key, and every job at a worker has one. */
  predicate KeysOk(s: System) {
    (forall w :: 0 <= w < |s.pool| ==> s.pool[w].key.SlashFree()) && forall j <- s.issued :: j.key.SlashFree()
  }

  lemma {:induction false} RunKeysOk(s: System, ms: seq<Move>)
    requires KeysOk(s) && Valid(s, ms) && SlashFreeJobs(ms)
    ensures KeysOk(Run(s, ms))
    decreases |ms|
  {
    if ms != [] {
      MoveKeysOk(s, ms[0]);
      assert forall m <- ms[1..] :: m in ms;
      RunKeysOk(Do(s, ms[0]), ms[1..]);
    }
  }

  lemma MoveKeysOk(s: System, m: Move)
    requires KeysOk(s) && CanMove(s, m) && (m.Lookup? ==> m.job.key.SlashFree())
    ensures KeysOk(Do(s, m))
  {
    if m.Local? {
      StepIdentity(s.pool[m.w], m.e);
    }
  }

  lemma SentIsIssued(s: System, j: Job, w: nat)
    requires SysInv(s) && w < |s.pool| && j in Read(s.pool[w].trace).sents
    ensures j in s.issued && s.pool[w].key.String() == j.key.String()
  {
    var vs := Views(s.pool);
    assert vs[w].sents == Read(s.pool[w].trace).sents && vs[w].Name() == s.pool[w].key.String();
    Placement(s.held.Keys, vs, s.issued, j);
  }

  /** What a worker finishes, and what it prompts for, was sent to it. */
  lemma WorkedOnWasSent(w: State, j: Job)
    requires Inv(w)
    ensures var l := Read(w.trace);
            j in l.dones || j in w.pc.InHand() || j in w.queue || j in PromptJobs(l.prompts) ==> j in l.sents
  {
    SentSplit(w, j);
    PromptedWithinSent(w, j);
  }

  /** If no team or channel id holds a slash, a worker receives, prompts for and finishes only jobs of its own thread. */
  lemma OwnThreadOnly(api: bool, ms: seq<Move>, w: nat, j: Job)
    requires Valid(Init(api), ms) && SlashFreeJobs(ms) && w < |Run(Init(api), ms).pool|
    ensures var x := Run(Init(api), ms).pool[w];
            var l := Read(x.trace);
            j in l.sents || j in l.dones || j in x.pc.InHand() || j in x.queue || j in PromptJobs(l.prompts) ==> j.key == x.key
  {
    var s := Run(Init(api), ms);
    ReachableInv(api, ms);
    RunKeysOk(Init(api), ms);
    assert Inv(s.pool[w]);
    WorkedOnWasSent(s.pool[w], j);
    if j in Read(s.pool[w].trace).sents {
      SentIsIssued(s, j, w);
      KeyStringInjective(j.key, s.pool[w].key);
    }
  }
}
