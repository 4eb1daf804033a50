/**
 Which jobs can still complete. The code promises no completion: an idle timer may fire while a job
 waits, and a sender may hold a pointer to a worker that has gone. Exactly those jobs are lost.
 */
module SchedulerCompletion {
  import opened Session
  import opened Worker
  import opened WorkerInv
  import opened Scheduler
  import opened SchedulerInv
  import opened SchedulerTheorems

  ghost predicate Completed(s: System, j: Job) {
    exists w :: HasFate(s, j, Finished(w))
  }

  ghost predicate CanComplete(s: System, j: Job) {
    exists ms :: Valid(s, ms) && Completed(Run(s, ms), j)
  }

  /** The worker that Enqueue picked for the job. */
  predicate BoundTo(s: System, j: Job, w: nat) {
    && w < |s.pool|
    && ((j in s.held && s.held[j] == w) || j in Views(s.pool)[w].sents)
  }

  lemma BoundIsIssued(s: System, j: Job, w: nat)
    requires SysInv(s) && BoundTo(s, j, w)
    ensures j in s.issued
  {
    Placement(s.held.Keys, Views(s.pool), s.issued, j);
  }

  /** Every issued job has been bound to a worker. */
  lemma IssuedIsBound(s: System, j: Job) returns (w: nat)
    requires SysInv(s) && j in s.issued
    ensures BoundTo(s, j, w)
  {
    Placement(s.held.Keys, Views(s.pool), s.issued, j);
    if j in s.held {
      w := s.held[j];
    } else {
      w :| 0 <= w < |s.pool| && j in Views(s.pool)[w].sents;
    }
  }

  // ---- a job bound to a worker that left the loop ----

  predicate Lost(s: System, j: Job, w: nat) {
    BoundTo(s, j, w) && s.pool[w].pc.Leaving() && j !in Read(s.pool[w].trace).dones
  }

  lemma LeavingStep(w: State, e: Event)
    requires Inv(w) && Enabled(w, e) && w.pc.Leaving()
    ensures Step(w, e).pc.Leaving()
    ensures Read(Step(w, e).trace).dones == Read(w.trace).dones
    ensures Read(Step(w, e).trace).sents == Read(w.trace).sents
  {
    StepRead(w, e);
    StepEffects(w, e, Read(w.trace));
  }

  lemma LostStaysLocal(s: System, v: nat, e: Event, j: Job, w: nat)
    requires WorkersOk(s.pool) && CanMove(s, Local(v, e)) && Lost(s, j, w)
    ensures Lost(Do(s, Local(v, e)), j, w)
  {
    if v == w {
      LeavingStep(s.pool[w], e);
    }
  }

  lemma LostStaysSend(s: System, k: Job, j: Job, w: nat)
    requires CanMove(s, Send(k)) && Lost(s, j, w)
    ensures Lost(Do(s, Send(k)), j, w)
  {
    ReadPush(s.pool[s.held[k]].trace, Sent(k));
  }

  lemma LostStaysLookup(s: System, k: Job, j: Job, w: nat)
    requires CanMove(s, Lookup(k)) && Lost(s, j, w) && j in s.issued
    ensures Lost(Do(s, Lookup(k)), j, w)
  {
    assert Do(s, Lookup(k)).pool[w] == s.pool[w];
    assert Views(Do(s, Lookup(k)).pool)[w] == Views(s.pool)[w];
  }

  lemma LostStays(s: System, m: Move, j: Job, w: nat)
    requires SysInv(s) && CanMove(s, m) && Lost(s, j, w)
    ensures Lost(Do(s, m), j, w)
  {
    match m
    case Lookup(k) =>
      BoundIsIssued(s, j, w);
      LostStaysLookup(s, k, j, w);
    case Send(k) => LostStaysSend(s, k, j, w);
    case Local(v, e) => LostStaysLocal(s, v, e, j, w);
  }

  /** A job can only be finished by the worker it is bound to. */
  lemma FinishedByBound(s: System, j: Job, w: nat, v: nat)
    requires SysInv(s) && BoundTo(s, j, w) && HasFate(s, j, Finished(v))
    ensures v == w
  {
    FateOfSent(s, j, Finished(v));
    Placement(s.held.Keys, Views(s.pool), s.issued, j);
  }

  lemma LostNotCompleted(s: System, j: Job, w: nat)
    requires SysInv(s) && Lost(s, j, w)
    ensures !Completed(s, j)
  {
    if Completed(s, j) {
      var v: nat :| HasFate(s, j, Finished(v));
      FinishedByBound(s, j, w, v);
      assert false;
    }
  }

  lemma {:induction false} LostForever(s: System, ms: seq<Move>, j: Job, w: nat)
    requires SysInv(s) && Lost(s, j, w) && Valid(s, ms)
    ensures !Completed(Run(s, ms), j)
    decreases |ms|
  {
    if ms == [] {
      LostNotCompleted(s, j, w);
    } else {
      MoveKeeps(s, ms[0]);
      LostStays(s, ms[0], j, w);
      LostForever(Do(s, ms[0]), ms[1..], j, w);
    }
  }

  // ---- a job bound to a worker that is still in its loop ----

  /** An upper bound on the events needed to work off the job in hand and the queue. */
  function Work(w: State): nat {
    8 * |w.queue| + match w.pc
                    case OpenWs(_) => 7
                    case PreCmd(_) => 6
                    case Mint(_) => 5
                    case Start(_, _) => 4
                    case ApplyCtx(_) => 3
                    case Ask(_) => 2
                    case Reply(_, _) => 1
                    case Select | Unreg | Unmap | Gone => 0
  }

  lemma LongestToken(ts: set<string>) returns (n: nat)
    ensures forall t <- ts :: |t| <= n
  {
    n := 0;
    var rest := ts;
    while rest != {}
      invariant rest <= ts
      invariant forall t <- ts - rest :: |t| <= n
    {
      var t :| t in rest;
      n := if |t| > n then |t| else n;
      rest := rest - {t};
    }
  }

  lemma FreshToken(reg: map<string, Key>) returns (t: string)
    ensures t != "" && t !in reg
  {
    var n := LongestToken(reg.Keys);
    t := seq(n + 1, i => 'f');
  }

  /** Some event other than the idle timer is possible and gets the worker closer to an empty channel. */
  lemma Nudge(w: State, token: string) returns (e: Event)
    requires !w.pc.Leaving() && (w.queue != [] || w.pc.InHand() != [])
    ensures Enabled(w, e) && (e.Minted? ==> e.token == token)
    ensures Work(Step(w, e)) < Work(w) && !Step(w, e).pc.Leaving()
  {
    match w.pc
    case Select =>
      assert w.queue == [w.queue[0]] + w.queue[1..];
      e := Recv;
    case OpenWs(_) => e := WsErr;
    case PreCmd(_) => e := PreErr;
    case Mint(_) => e := Minted(token);
    case Start(_, _) => e := StartErr;
    case ApplyCtx(_) => e := CtxErr;
    case Ask(_) => e := Answered(false);
    case Reply(_, _) => e := Replied;
  }

  /** An event of the bound worker leaves the binding alone. */
  lemma BoundLocal(s: System, j: Job, w: nat, e: Event)
    requires SysInv(s) && BoundTo(s, j, w) && CanMove(s, Local(w, e))
    ensures BoundTo(Do(s, Local(w, e)), j, w)
  {
    var v := LocalView(s, w, e);
  }

  lemma BoundSend(s: System, j: Job, w: nat)
    requires SysInv(s) && BoundTo(s, j, w) && CanMove(s, Send(j))
    ensures s.held[j] == w && BoundTo(Do(s, Send(j)), j, w)
    ensures Do(s, Send(j)).pool[w].pc == s.pool[w].pc
  {
    Placement(s.held.Keys, Views(s.pool), s.issued, j);
    assert s.held[j] == w;
    AcceptView(s.pool, w, j);
    SentNow(s, j, w);
  }

  lemma SentNow(s: System, j: Job, w: nat)
    requires CanMove(s, Send(j)) && s.held[j] == w
    ensures var x := Do(s, Send(j)).pool[w];
            x == Accept(s.pool[w], j) && x.pc == s.pool[w].pc && Read(x.trace).sents == Read(s.pool[w].trace).sents + [j]
  {
    ReadPush(s.pool[w].trace, Sent(j));
  }

  lemma StillWaiting(s: System, j: Job, w: nat)
    requires SysInv(s) && BoundTo(s, j, w) && j !in Read(s.pool[w].trace).dones && !CanMove(s, Send(j))
    ensures s.pool[w].queue != [] || s.pool[w].pc.InHand() != []
  {
    SentSplit(s.pool[w], j);
  }

  /** One move towards completion: the send if it is due and fits, otherwise an event of the worker. */
  lemma Progress(s: System, j: Job, w: nat) returns (m: Move)
    requires SysInv(s) && BoundTo(s, j, w) && !s.pool[w].pc.Leaving()
    requires j !in Read(s.pool[w].trace).dones
    ensures CanMove(s, m) && BoundTo(Do(s, m), j, w) && !Do(s, m).pool[w].pc.Leaving()
    ensures if m.Send? then j in s.held && j !in Do(s, m).held
            else Do(s, m).held == s.held && Work(Do(s, m).pool[w]) < Work(s.pool[w])
  {
    if CanMove(s, Send(j)) {
      m := Send(j);
      BoundSend(s, j, w);
    } else {
      StillWaiting(s, j, w);
      var t := FreshToken(s.reg);
      var e := Nudge(s.pool[w], if s.api then t else "");
      m := Local(w, e);
      BoundLocal(s, j, w, e);
    }
  }

  /** A schedule that completes the job: every external call on the way fails at once. */
  lemma {:induction false} Drive(s: System, j: Job, w: nat) returns (ms: seq<Move>)
    requires SysInv(s) && BoundTo(s, j, w) && !s.pool[w].pc.Leaving()
    ensures Valid(s, ms) && Completed(Run(s, ms), j)
    decreases j in s.held, Work(s.pool[w])
  {
    if j in Read(s.pool[w].trace).dones {
      assert HasFate(s, j, Finished(w));
      return [];
    }
    var m := Progress(s, j, w);
    MoveKeeps(s, m);
    var rest := Drive(Do(s, m), j, w);
    ms := [m] + rest;
    assert ms[1..] == rest;
  }

  /** A job can complete exactly when it has, or its worker is still in its loop. */
  lemma CompletableIff(s: System, j: Job, w: nat)
    requires SysInv(s) && BoundTo(s, j, w)
    ensures CanComplete(s, j) <==> Completed(s, j) || !s.pool[w].pc.Leaving()
  {
    if !s.pool[w].pc.Leaving() {
      var ms := Drive(s, j, w);
    } else if j in Read(s.pool[w].trace).dones {
      assert HasFate(s, j, Finished(w));
      assert Valid(s, []) && Run(s, []) == s;
    } else {
      LostNotCompleted(s, j, w);
      forall ms | Valid(s, ms) ensures !Completed(Run(s, ms), j) {
        LostForever(s, ms, j, w);
      }
    }
  }
}
