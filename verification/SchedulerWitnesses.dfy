/** Jobs do get stranded: two runs from the start, and in both the job is lost for good. */
module SchedulerWitnesses {
  import opened Session
  import opened Worker
  import opened Scheduler
  import opened SchedulerInv
  import opened SchedulerTheorems
  import opened SchedulerCompletion

  /** A worker that fails to open a workspace for its first job, and is left by its idle timer. */
  function FailedFirst(a: Job): State {
    Step(Step(Accept(NewWorker(a.key), a), Recv), WsErr)
  }

  function Opening(a: Job): seq<Move> {
    [Lookup(a), Send(a), Local(0, Recv), Local(0, WsErr)]
  }

  lemma FirstFails(api: bool, a: Job)
    ensures var ms := Opening(a);
            && Valid(Init(api), ms)
            && Run(Init(api), ms) == System(api, map[a.key.String() := 0], [FailedFirst(a)], map[], map[], {a})
            && FailedFirst(a).pc.Select? && FailedFirst(a).idle && FailedFirst(a).queue == []
  {
    var s1 := Do(Init(api), Lookup(a));
    var s2 := Do(s1, Send(a));
    var w2 := Accept(NewWorker(a.key), a);
    assert s1.pool == [NewWorker(a.key)] && s2.pool == [w2] && w2.queue == [a];
    var s3 := Do(s2, Local(0, Recv));
    assert s3.pool == [Step(w2, Recv)] && Step(w2, Recv).queue == [];
    var s4 := Do(s3, Local(0, WsErr));
    FailsAndWaits(a);
    assert s4.pool == [FailedFirst(a)];
    assert Valid(s4, []) && Run(s4, []) == s4;
    RunCons(s3, Local(0, WsErr), []);
    RunCons(s2, Local(0, Recv), [Local(0, WsErr)]);
    RunCons(s1, Send(a), [Local(0, Recv), Local(0, WsErr)]);
    RunCons(Init(api), Lookup(a), [Send(a), Local(0, Recv), Local(0, WsErr)]);
  }

  lemma FailsAndWaits(a: Job)
    ensures FailedFirst(a).pc.Select? && FailedFirst(a).idle && FailedFirst(a).queue == []
  {
  }

  lemma RunCons(s: System, m: Move, ms: seq<Move>)
    requires CanMove(s, m) && Valid(Do(s, m), ms)
    ensures Valid(s, [m] + ms) && Run(s, [m] + ms) == Run(Do(s, m), ms)
  {
    assert ([m] + ms)[1..] == ms;
  }

  lemma {:induction false} RunConcat(s: System, ms: seq<Move>, ns: seq<Move>)
    requires Valid(s, ms) && Valid(Run(s, ms), ns)
    ensures Valid(s, ms + ns) && Run(s, ms + ns) == Run(Run(s, ms), ns)
    decreases |ms|
  {
    if ms == [] {
      assert ms + ns == ns;
    } else {
      RunConcat(Do(s, ms[0]), ms[1..], ns);
      RunCons(s, ms[0], ms[1..] + ns);
      assert [ms[0]] + (ms[1..] + ns) == ms + ns;
    }
  }

  /** A stranded job cannot complete in any continuation. */
  lemma StrandedIsLost(api: bool, ms: seq<Move>, j: Job, w: nat)
    requires Valid(Init(api), ms) && HasFate(Run(Init(api), ms), j, Stranded(w))
    ensures !CanComplete(Run(Init(api), ms), j)
  {
    var s := Run(Init(api), ms);
    ReachableInv(api, ms);
    FateOfSent(s, j, Stranded(w));
    if Completed(s, j) {
      var v: nat :| HasFate(s, j, Finished(v));
      SameFate(s, j, Stranded(w), Finished(v));
    }
    CompletableIff(s, j, w);
  }

  /** The idle timer fires while a second job waits in the channel. */
  lemma StrandedInChannel(api: bool, a: Job, b: Job)
    requires a != b && a.key.String() == b.key.String()
    ensures var ms := Opening(a) + [Lookup(b), Send(b), Local(0, IdleFire)];
            && Valid(Init(api), ms)
            && HasFate(Run(Init(api), ms), b, Stranded(0))
            && !CanComplete(Run(Init(api), ms), b)
  {
    FirstFails(api, a);
    var s := Run(Init(api), Opening(a));
    var s1 := Do(s, Lookup(b));
    var s2 := Do(s1, Send(b));
    assert s2.pool[0].queue == [b];
    var s3 := Do(s2, Local(0, IdleFire));
    assert Valid(s3, []) && Run(s3, []) == s3;
    RunCons(s2, Local(0, IdleFire), []);
    RunCons(s1, Send(b), [Local(0, IdleFire)]);
    RunCons(s, Lookup(b), [Send(b), Local(0, IdleFire)]);
    RunConcat(Init(api), Opening(a), [Lookup(b), Send(b), Local(0, IdleFire)]);
    StrandedIsLost(api, Opening(a) + [Lookup(b), Send(b), Local(0, IdleFire)], b, 0);
  }

  /** The worker's way out of its loop and out of the map. */
  function Exit(): seq<Move> {
    [Local(0, IdleFire), Local(0, Unregister), Local(0, Remove)]
  }

  lemma Exits(s: System)
    requires |s.pool| == 1 && s.pool[0].pc.Select? && s.pool[0].idle
    ensures Valid(s, Exit())
    ensures var s' := Run(s, Exit());
            |s'.pool| == 1 && s'.pool[0].pc.Gone? && s'.pool[0].queue == s.pool[0].queue && s'.held == s.held
  {
    var s1 := Do(s, Local(0, IdleFire));
    var s2 := Do(s1, Local(0, Unregister));
    var s3 := Do(s2, Local(0, Remove));
    assert Valid(s3, []) && Run(s3, []) == s3;
    RunCons(s2, Local(0, Remove), []);
    RunCons(s1, Local(0, Unregister), [Local(0, Remove)]);
    RunCons(s, Local(0, IdleFire), [Local(0, Unregister), Local(0, Remove)]);
  }

  /** The sender has picked the worker, which is gone before the send. */
  lemma StrandedAfterExit(api: bool, a: Job, b: Job)
    requires a != b && a.key.String() == b.key.String()
    ensures var ms := Opening(a) + ([Lookup(b)] + (Exit() + [Send(b)]));
            && Valid(Init(api), ms)
            && HasFate(Run(Init(api), ms), b, Stranded(0))
            && !CanComplete(Run(Init(api), ms), b)
  {
    FirstFails(api, a);
    var s := Run(Init(api), Opening(a));
    var s1 := Do(s, Lookup(b));
    Exits(s1);
    SendStrands(Run(s1, Exit()), b);
    RunConcat(s1, Exit(), [Send(b)]);
    RunCons(s, Lookup(b), Exit() + [Send(b)]);
    RunConcat(Init(api), Opening(a), [Lookup(b)] + (Exit() + [Send(b)]));
    StrandedIsLost(api, Opening(a) + ([Lookup(b)] + (Exit() + [Send(b)])), b, 0);
  }

  lemma SendStrands(s: System, b: Job)
    requires |s.pool| == 1 && s.pool[0].pc.Gone? && s.pool[0].queue == [] && b in s.held && s.held[b] == 0
    ensures Valid(s, [Send(b)]) && HasFate(Run(s, [Send(b)]), b, Stranded(0))
  {
    var s' := Do(s, Send(b));
    assert s'.pool[0].queue == [b];
    assert Valid(s', []) && Run(s', []) == s';
    RunCons(s, Send(b), []);
  }
}
