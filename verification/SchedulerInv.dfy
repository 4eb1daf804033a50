/** Every move of the scheduler keeps the system invariant. */
module SchedulerInv {
  import opened Session
  import opened Worker
  import opened WorkerInv
  import opened Scheduler

  lemma Exchange(p: multiset<Job>, a: multiset<Job>, q: multiset<Job>, b: multiset<Job>, u: multiset<Job>)
    requires p + a == q + b
    ensures (p + u) + a == (q + u) + b
  {
    assert (p + u) + a == (p + a) + u;
    assert (q + u) + b == (q + b) + u;
  }

  lemma Cancel(p: multiset<Job>, q: multiset<Job>, a: multiset<Job>)
    requires p + a == q + a
    ensures p == q
  {
    assert p == (p + a) - a;
    assert q == (q + a) - a;
  }

  lemma {:induction false} SentBagUpdate(vs: seq<View>, i: nat, v: View)
    requires i < |vs|
    ensures SentBag(vs[i := v]) + multiset(vs[i].sents) == SentBag(vs) + multiset(v.sents)
  {
    var n := |vs| - 1;
    var us := vs[i := v];
    if i < n {
      SentBagUpdate(vs[..n], i, v);
      assert us[..n] == vs[..n][i := v] && us[n] == vs[n];
      SentBagMore(vs[..n], us[..n], vs[n], multiset(vs[i].sents), multiset(v.sents));
      assert vs == vs[..n] + [vs[n]] && us == us[..n] + [vs[n]];
    } else {
      assert vs == vs[..n] + [vs[n]] && us == vs[..n] + [v];
      SentBagPush(vs[..n], vs[n]);
      SentBagPush(vs[..n], v);
      Swapped(SentBag(vs[..n]), multiset(v.sents), multiset(vs[n].sents));
    }
  }

  lemma SentBagMore(vs: seq<View>, us: seq<View>, x: View, a: multiset<Job>, b: multiset<Job>)
    requires SentBag(us) + a == SentBag(vs) + b
    ensures SentBag(us + [x]) + a == SentBag(vs + [x]) + b
  {
    SentBagPush(us, x);
    SentBagPush(vs, x);
    Exchange(SentBag(us), a, SentBag(vs), b, multiset(x.sents));
  }

  lemma Swapped(a: multiset<Job>, x: multiset<Job>, y: multiset<Job>)
    ensures a + x + y == a + y + x
  {
  }

  lemma SentBagPush(vs: seq<View>, v: View)
    ensures SentBag(vs + [v]) == SentBag(vs) + multiset(v.sents)
  {
    assert (vs + [v])[..|vs|] == vs;
  }

  lemma ViewsUpdate(pool: seq<State>, i: nat, w: State)
    requires i < |pool|
    ensures Views(pool[i := w]) == Views(pool)[i := ViewOf(w)]
  {
  }

  lemma ViewsPush(pool: seq<State>, w: State)
    ensures Views(pool + [w]) == Views(pool) + [ViewOf(w)]
  {
  }

  lemma WorkersUpdate(pool: seq<State>, i: nat, w: State)
    requires WorkersOk(pool) && i < |pool| && Inv(w)
    ensures WorkersOk(pool[i := w])
  {
  }

  // ---- Enqueue's critical section ----

  lemma FreshJob(held: set<Job>, vs: seq<View>, issued: set<Job>, j: Job)
    requires Conserved(held, vs, issued) && j !in issued
    ensures j !in held && Conserved(held + {j}, vs, issued + {j})
  {
    assert multiset(held)[j] <= multiset(issued)[j];
    assert multiset(held + {j}) == multiset(held) + multiset{j};
    assert multiset(issued + {j}) == multiset(issued) + multiset{j};
  }

  lemma RegNewWorker(vs: seq<View>, reg: map<string, Key>, v: View)
    requires RegExact(vs, reg) && v.token == ""
    ensures RegExact(vs + [v], reg)
  {
    var us := vs + [v];
    forall t | t in reg ensures exists w :: 0 <= w < |us| && us[w].token == t {
      var w :| 0 <= w < |vs| && vs[w].token == t;
      assert us[w].token == t;
    }
  }

  lemma RoutedHold(held: map<Job, nat>, vs: seq<View>, j: Job, w: nat)
    requires Routed(held, vs) && w < |vs| && vs[w].Name() == j.key.String()
    ensures Routed(held[j := w], vs)
  {
  }

  lemma LookupBoundKeeps(s: System, j: Job)
    requires SysInv(s) && CanMove(s, Lookup(j)) && j.key.String() in s.workers
    ensures SysInv(Do(s, Lookup(j)))
  {
    var w := s.workers[j.key.String()];
    BoundLookup(s.workers, s.held, Views(s.pool), s.issued, j);
    NewlyHeld(s, s.held[j := w], s.issued + {j});
    DoBound(s, j);
  }

  lemma DoBound(s: System, j: Job)
    requires CanMove(s, Lookup(j)) && j.key.String() in s.workers
    ensures Do(s, Lookup(j)) == s.(held := s.held[j := s.workers[j.key.String()]], issued := s.issued + {j})
  {
  }

  lemma BoundLookup(workers: map<string, nat>, held: map<Job, nat>, vs: seq<View>, issued: set<Job>, j: Job)
    requires MapExact(workers, vs) && Routed(held, vs) && Conserved(held.Keys, vs, issued)
    requires j !in issued && j.key.String() in workers
    ensures var held' := held[j := workers[j.key.String()]];
            Routed(held', vs) && Conserved(held'.Keys, vs, issued + {j})
  {
    var w := workers[j.key.String()];
    FreshJob(held.Keys, vs, issued, j);
    RoutedHold(held, vs, j, w);
    assert held[j := w].Keys == held.Keys + {j};
  }

  lemma NewlyHeld(s: System, held: map<Job, nat>, issued: set<Job>)
    requires SysInv(s) && Routed(held, Views(s.pool)) && Conserved(held.Keys, Views(s.pool), issued)
    ensures SysInv(s.(held := held, issued := issued))
  {
  }

  lemma LookupNewKeeps(s: System, j: Job)
    requires SysInv(s) && CanMove(s, Lookup(j)) && j.key.String() !in s.workers
    ensures SysInv(Do(s, Lookup(j)))
  {
    var vs, v := Views(s.pool), View(j.key, false, "", []);
    FreshJob(s.held.Keys, vs, s.issued, j);
    AddWorker(s.pool, j.key);
    assert s.held[j := |s.pool|].Keys == s.held.Keys + {j};
    ConservedNewWorker(s.held.Keys + {j}, vs, s.issued + {j}, v);
    RegNewWorker(vs, s.reg, v);
    MapNewWorker(s.workers, vs, v);
    RoutedNewWorker(s.held, vs, v, j);
  }

  lemma ConservedNewWorker(held: set<Job>, vs: seq<View>, issued: set<Job>, v: View)
    requires Conserved(held, vs, issued) && v.sents == []
    ensures Conserved(held, vs + [v], issued)
  {
    SentBagPush(vs, v);
  }

  lemma AddWorker(pool: seq<State>, key: Key)
    requires WorkersOk(pool)
    ensures WorkersOk(pool + [NewWorker(key)])
    ensures Views(pool + [NewWorker(key)]) == Views(pool) + [View(key, false, "", [])]
  {
    NewWorkerInv(key);
    ViewsPush(pool, NewWorker(key));
  }

  lemma RoutedNewWorker(held: map<Job, nat>, vs: seq<View>, v: View, j: Job)
    requires Routed(held, vs) && v.sents == [] && v.Name() == j.key.String()
    ensures Routed(held[j := |vs|], vs + [v])
  {
  }

  lemma MapNewWorker(workers: map<string, nat>, vs: seq<View>, v: View)
    requires MapExact(workers, vs) && v.Name() !in workers && !v.gone
    ensures MapExact(workers[v.Name() := |vs|], vs + [v])
  {
  }

  // ---- the channel send ----

  lemma SentBagSend(held: set<Job>, vs: seq<View>, issued: set<Job>, j: Job, w: nat, v: View)
    requires Conserved(held, vs, issued) && j in held && w < |vs| && v.sents == vs[w].sents + [j]
    ensures Conserved(held - {j}, vs[w := v], issued)
  {
    var bag, bag', old', one := SentBag(vs), SentBag(vs[w := v]), multiset(vs[w].sents), multiset{j};
    SentBagUpdate(vs, w, v);
    assert multiset(v.sents) == old' + one;
    assert bag + (old' + one) == (bag + one) + old';
    Cancel(bag', bag + one, old');
    assert held == (held - {j}) + {j};
    assert multiset(held) == multiset(held - {j}) + one;
  }

  lemma RoutedSend(held: map<Job, nat>, vs: seq<View>, j: Job, v: View)
    requires Routed(held, vs) && j in held && v == vs[held[j]].(sents := vs[held[j]].sents + [j])
    ensures Routed(held - {j}, vs[held[j] := v])
  {
  }

  lemma AcceptView(pool: seq<State>, w: nat, j: Job)
    requires WorkersOk(pool) && w < |pool|
    ensures var pool' := pool[w := Accept(pool[w], j)];
            && WorkersOk(pool')
            && Views(pool') == Views(pool)[w := Views(pool)[w].(sents := Views(pool)[w].sents + [j])]
  {
    var x := Accept(pool[w], j);
    ReadPush(pool[w].trace, Sent(j));
    AcceptInv(pool[w], j);
    WorkersUpdate(pool, w, x);
    ViewsUpdate(pool, w, x);
    assert ViewOf(x) == Views(pool)[w].(sents := Views(pool)[w].sents + [j]);
  }

  lemma SendKeeps(s: System, j: Job)
    requires SysInv(s) && CanMove(s, Send(j))
    ensures SysInv(Do(s, Send(j)))
  {
    var vs, w := Views(s.pool), s.held[j];
    var v := vs[w].(sents := vs[w].sents + [j]);
    AcceptView(s.pool, w, j);
    SendViews(s, j, vs, w, v);
  }

  lemma SendViews(s: System, j: Job, vs: seq<View>, w: nat, v: View)
    requires MapExact(s.workers, vs) && Routed(s.held, vs) && Conserved(s.held.Keys, vs, s.issued) && RegExact(vs, s.reg)
    requires j in s.held && w == s.held[j] < |vs| && v == vs[w].(sents := vs[w].sents + [j])
    ensures MapExact(s.workers, vs[w := v]) && Routed(s.held - {j}, vs[w := v])
    ensures Conserved((s.held - {j}).Keys, vs[w := v], s.issued) && RegExact(vs[w := v], s.reg)
  {
    assert (s.held - {j}).Keys == s.held.Keys - {j};
    SentBagSend(s.held.Keys, vs, s.issued, j, w, v);
    RoutedSend(s.held, vs, j, v);
    SameToken(vs, s.reg, w, v);
    OthersKeepMap(s.workers, vs, w, vs[w].(sents := v.sents));
  }

  // ---- one event of one worker ----

  lemma SameToken(vs: seq<View>, reg: map<string, Key>, w: nat, v: View)
    requires RegExact(vs, reg) && w < |vs| && v.token == vs[w].token && v.key == vs[w].key
    ensures RegExact(vs[w := v], reg)
  {
    var us := vs[w := v];
    forall t | t in reg ensures exists i :: 0 <= i < |us| && us[i].token == t {
      var i :| 0 <= i < |vs| && vs[i].token == t;
      assert us[i].token == t;
    }
  }

  lemma RegisterFresh(vs: seq<View>, reg: map<string, Key>, w: nat, v: View)
    requires RegExact(vs, reg) && w < |vs| && vs[w].token == "" && v.token !in reg && v.key == vs[w].key
    ensures RegExact(vs[w := v], Registered(reg, v.token, v.key))
  {
    var us := vs[w := v];
    forall t | t in Registered(reg, v.token, v.key) ensures exists i :: 0 <= i < |us| && us[i].token == t {
      if t == v.token {
        assert us[w].token == t;
      } else {
        var i :| 0 <= i < |vs| && vs[i].token == t;
        assert us[i].token == t;
      }
    }
  }

  lemma UnregisterLive(vs: seq<View>, reg: map<string, Key>, w: nat, v: View)
    requires RegExact(vs, reg) && w < |vs| && v.token == "" && v.key == vs[w].key
    ensures RegExact(vs[w := v], Unregistered(reg, vs[w].token))
  {
    var us := vs[w := v];
    forall t | t in Unregistered(reg, vs[w].token) ensures exists i :: 0 <= i < |us| && us[i].token == t {
      var i :| 0 <= i < |vs| && vs[i].token == t;
      assert us[i].token == t;
    }
  }

  lemma StepSents(w: State, e: Event)
    requires Inv(w) && Enabled(w, e)
    ensures Read(Step(w, e).trace).sents == Read(w.trace).sents
  {
    StepRead(w, e);
    StepEffects(w, e, Read(w.trace));
  }

  lemma StepIdentity(w: State, e: Event)
    requires Enabled(w, e)
    ensures Step(w, e).key == w.key && !w.pc.Gone?
    ensures Step(w, e).pc.Gone? <==> e.Remove?
  {
    StepKey(w, e);
  }

  lemma StepKey(w: State, e: Event)
    requires Enabled(w, e)
    ensures Step(w, e).key == w.key
  {
  }

  /** What an event does to the worker's live token and to the registry go together. */
  lemma RegFlow(w: State, e: Event, reg: map<string, Key>)
    requires Inv(w) && Enabled(w, e)
    ensures var t, t' := LiveToken(w), LiveToken(Step(w, e));
            if e.Minted? then t == "" && t' == e.token && RegStep(w, e, reg) == Registered(reg, t', w.key)
            else if e.StartErr? || e.Unregister? then t' == "" && RegStep(w, e, reg) == Unregistered(reg, t)
            else t' == t && RegStep(w, e, reg) == reg
  {
    StepTokenFlow(w, e, Read(w.trace));
    if !e.Minted? {
      OtherRegStep(w, e, reg);
    }
  }

  lemma OtherRegStep(w: State, e: Event, reg: map<string, Key>)
    requires Enabled(w, e) && !e.Minted?
    ensures RegStep(w, e, reg) == if e.StartErr? || e.Unregister? then Unregistered(reg, LiveToken(w)) else reg
  {
  }

  lemma RemoveKeepsMap(workers: map<string, nat>, vs: seq<View>, w: nat, v: View)
    requires MapExact(workers, vs) && w < |vs| && !vs[w].gone && v == vs[w].(gone := true, token := v.token)
    ensures MapExact(workers - {v.Name()}, vs[w := v])
  {
  }

  lemma OthersKeepMap(workers: map<string, nat>, vs: seq<View>, w: nat, v: View)
    requires MapExact(workers, vs) && w < |vs| && v == vs[w].(token := v.token, sents := v.sents)
    ensures MapExact(workers, vs[w := v])
  {
  }

  lemma SameSents(held: map<Job, nat>, vs: seq<View>, issued: set<Job>, w: nat, v: View)
    requires Routed(held, vs) && Conserved(held.Keys, vs, issued) && w < |vs| && v.sents == vs[w].sents && v.key == vs[w].key
    ensures Routed(held, vs[w := v]) && Conserved(held.Keys, vs[w := v], issued)
  {
    SentBagUpdate(vs, w, v);
    Cancel(SentBag(vs[w := v]), SentBag(vs), multiset(v.sents));
  }

  lemma LocalView(s: System, w: nat, e: Event) returns (v: View)
    requires SysInv(s) && CanMove(s, Local(w, e))
    ensures v == ViewOf(Step(s.pool[w], e)) && v.key == s.pool[w].key
    ensures v == Views(s.pool)[w].(gone := e.Remove?, token := v.token)
    ensures !Views(s.pool)[w].gone
    ensures Views(Do(s, Local(w, e)).pool) == Views(s.pool)[w := v]
  {
    v := ViewOf(Step(s.pool[w], e));
    StepSents(s.pool[w], e);
    StepIdentity(s.pool[w], e);
    ViewsUpdate(s.pool, w, Step(s.pool[w], e));
  }

  lemma LocalKeepsRegistry(s: System, w: nat, e: Event)
    requires SysInv(s) && CanMove(s, Local(w, e))
    ensures var s' := Do(s, Local(w, e)); RegExact(Views(s'.pool), s'.reg)
  {
    var v := LocalView(s, w, e);
    RegFlow(s.pool[w], e, s.reg);
    if e.Minted? {
      RegisterFresh(Views(s.pool), s.reg, w, v);
    } else if e.StartErr? || e.Unregister? {
      UnregisterLive(Views(s.pool), s.reg, w, v);
    } else {
      SameToken(Views(s.pool), s.reg, w, v);
    }
  }

  lemma LocalKeepsMap(s: System, w: nat, e: Event)
    requires SysInv(s) && CanMove(s, Local(w, e))
    ensures var s' := Do(s, Local(w, e)); MapExact(s'.workers, Views(s'.pool))
  {
    var v := LocalView(s, w, e);
    if e.Remove? {
      RemoveKeepsMap(s.workers, Views(s.pool), w, v);
    } else {
      OthersKeepMap(s.workers, Views(s.pool), w, v);
    }
  }

  lemma LocalKeeps(s: System, w: nat, e: Event)
    requires SysInv(s) && CanMove(s, Local(w, e))
    ensures SysInv(Do(s, Local(w, e)))
  {
    LocalKeepsRegistry(s, w, e);
    LocalKeepsMap(s, w, e);
    StepInv(s.pool[w], e);
    WorkersUpdate(s.pool, w, Step(s.pool[w], e));
    var v := LocalView(s, w, e);
    SameSents(s.held, Views(s.pool), s.issued, w, v);
  }

  lemma MoveKeeps(s: System, m: Move)
    requires SysInv(s) && CanMove(s, m)
    ensures SysInv(Do(s, m))
  {
    match m
    case Lookup(j) =>
      if j.key.String() in s.workers {
        LookupBoundKeeps(s, j);
      } else {
        LookupNewKeeps(s, j);
      }
    case Send(j) => SendKeeps(s, j);
    case Local(w, e) => LocalKeeps(s, w, e);
  }

  lemma {:induction false} RunKeeps(s: System, ms: seq<Move>)
    requires SysInv(s) && Valid(s, ms)
    ensures SysInv(Run(s, ms))
    decreases |ms|
  {
    if ms != [] {
      MoveKeeps(s, ms[0]);
      RunKeeps(Do(s, ms[0]), ms[1..]);
    }
  }

  /** The system invariant holds after every run, whatever the interleaving and whatever fails. */
  lemma ReachableInv(api: bool, ms: seq<Move>)
    requires Valid(Init(api), ms)
    ensures SysInv(Run(Init(api), ms))
  {
    RunKeeps(Init(api), ms);
  }
}
