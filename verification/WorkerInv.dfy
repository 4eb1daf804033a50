/** Every event of a worker keeps the worker invariant: resources, channel order and prompts. */
module WorkerInv {
  import opened Session
  import opened Worker

  function BookIf(c: bool, l: Ledger, a: Act): Ledger {
    if c then Book(l, a) else l
  }

  predicate Finishes(e: Event) {
    e.WsErr? || e.PreErr? || e.StartErr? || e.CtxErr? || e.Replied?
  }

  function NextBody(w: State): string
    requires w.pc.Ask?
  {
    if SendsOpening(w) then w.body else w.pc.job.text
  }

  /** The ledger after an event. */
  function StepLedger(w: State, e: Event, l: Ledger): Ledger
    requires Enabled(w, e)
  {
    match e
    case Recv | PreOk | CtxOk | Remove => l
    case WsOk => Book(l, WsCreated)
    case WsErr | CtxErr => Book(l, Done(w.pc.job, false))
    case PreErr => Book(Book(l, WsCleaned), Done(w.pc.job, false))
    case Minted(t) => BookIf(t != "", l, TokenIn(t))
    case StartOk => Book(l, ProvStarted(w.pc.job))
    case StartErr =>
      Book(Book(BookIf(w.pc.token != "", l, TokenOut(w.pc.token)), WsCleaned), Done(w.pc.job, false))
    case Answered(ok) => Book(l, Prompted(Prompt(w.pc.job, NextBody(w), ok)))
    case Replied => Book(l, Done(w.pc.job, w.pc.ok))
    case IdleFire => BookIf(w.ws, BookIf(w.prov, l, ProvClosed), WsCleaned)
    case Unregister => BookIf(w.token != "", l, TokenOut(w.token))
  }

  lemma StepRead(w: State, e: Event)
    requires Enabled(w, e)
    ensures Read(Step(w, e).trace) == StepLedger(w, e, Read(w.trace))
  {
    if Finishes(e) {
      FinishRead(w, e);
    } else if e.IdleFire? {
      IdleFireRead(w);
    } else {
      OnwardRead(w, e);
    }
  }

  lemma FinishRead(w: State, e: Event)
    requires Enabled(w, e) && Finishes(e)
    ensures Read(Step(w, e).trace) == StepLedger(w, e, Read(w.trace))
  {
    var t := w.trace;
    match e
    case WsErr | CtxErr => ReadPush(t, Done(w.pc.job, false));
    case PreErr => ReadPush(t, WsCleaned); ReadPush(t + [WsCleaned], Done(w.pc.job, false));
    case StartErr => StartErrRead(w);
    case Replied => ReadPush(t, Done(w.pc.job, w.pc.ok));
  }

  lemma OnwardRead(w: State, e: Event)
    requires Enabled(w, e) && !Finishes(e) && !e.IdleFire?
    ensures Read(Step(w, e).trace) == StepLedger(w, e, Read(w.trace))
  {
    var t := w.trace;
    match e
    case Recv | PreOk | CtxOk | Remove =>
    case WsOk => ReadPush(t, WsCreated);
    case Minted(k) => ReadPush(t, TokenIn(k));
    case StartOk => ReadPush(t, ProvStarted(w.pc.job));
    case Answered(ok) => ReadPush(t, Prompted(Prompt(w.pc.job, NextBody(w), ok)));
    case Unregister => ReadPush(t, TokenOut(w.token));
  }

  lemma StartErrRead(w: State)
    requires w.pc.Start?
    ensures Read(Step(w, StartErr).trace) == StepLedger(w, StartErr, Read(w.trace))
  {
    ReadPush(w.trace, TokenOut(w.pc.token));
    var t := LogIf(w.pc.token != "", w, TokenOut(w.pc.token)).trace;
    ReadPush(t, WsCleaned);
    ReadPush(t + [WsCleaned], Done(w.pc.job, false));
  }

  lemma IdleFireRead(w: State)
    requires w.pc.Select? && w.idle
    ensures Read(Step(w, IdleFire).trace) == StepLedger(w, IdleFire, Read(w.trace))
  {
    ReadPush(w.trace, ProvClosed);
    ReadPush(LogIf(w.prov, w, ProvClosed).trace, WsCleaned);
  }

  /** Which job an event finishes, and what becomes of the channel and the job in hand. */
  lemma StepEffects(w: State, e: Event, l: Ledger)
    requires LoopShape(w) && Enabled(w, e)
    ensures var w', l' := Step(w, e), StepLedger(w, e, l);
            && l'.sents == l.sents
            && l'.dones == (if Finishes(e) then l.dones + w.pc.InHand() else l.dones)
            && w.queue == (if e.Recv? then w'.pc.InHand() + w'.queue else w'.queue)
            && (Finishes(e) ==> |w.pc.InHand()| == 1 && w'.pc.InHand() == [])
            && (e.Recv? ==> w.pc.InHand() == [])
            && (!Finishes(e) && !e.Recv? ==> w'.pc.InHand() == w.pc.InHand())
  {
    LedgerEffects(w, e, l);
    QueueEffects(w, e);
  }

  lemma LedgerEffects(w: State, e: Event, l: Ledger)
    requires Enabled(w, e)
    ensures var l' := StepLedger(w, e, l);
            l'.sents == l.sents && l'.dones == (if Finishes(e) then l.dones + w.pc.InHand() else l.dones)
  {
  }

  lemma QueueEffects(w: State, e: Event)
    requires LoopShape(w) && Enabled(w, e)
    ensures var w' := Step(w, e);
            && w.queue == (if e.Recv? then w'.pc.InHand() + w'.queue else w'.queue)
            && (Finishes(e) ==> |w.pc.InHand()| == 1 && w'.pc.InHand() == [])
            && (e.Recv? ==> w.pc.InHand() == [])
            && (!Finishes(e) && !e.Recv? ==> w'.pc.InHand() == w.pc.InHand())
  {
    if e.Recv? {
      assert w.queue == [w.queue[0]] + w.queue[1..];
    }
  }

  /** The idle timer is armed only by finishing a job, and only an armed timer leads out of the loop. */
  lemma StepTimer(w: State, e: Event)
    requires LoopShape(w) && Enabled(w, e)
    ensures Step(w, e).idle || Step(w, e).pc.Leaving() ==> Finishes(e) || w.idle || w.pc.Leaving()
  {
  }

  lemma StepBalanced(w: State, e: Event, l: Ledger)
    requires LoopShape(w) && Balanced(w, l) && Enabled(w, e)
    ensures LoopShape(Step(w, e)) && Balanced(Step(w, e), StepLedger(w, e, l))
  {
    StepShape(w, e);
    StepCounts(w, e, l);
  }

  lemma StepShape(w: State, e: Event)
    requires LoopShape(w) && Enabled(w, e)
    ensures LoopShape(Step(w, e))
  {
  }

  lemma StepCounts(w: State, e: Event, l: Ledger)
    requires LoopShape(w) && Balanced(w, l) && Enabled(w, e)
    ensures Balanced(Step(w, e), StepLedger(w, e, l))
  {
  }

  lemma StepTokenFlow(w: State, e: Event, l: Ledger)
    requires LoopShape(w) && OneSession(w, l) && Enabled(w, e)
    ensures var w', l' := Step(w, e), StepLedger(w, e, l);
            if e.Minted? then
              LiveToken(w) == "" && LiveToken(w') == e.token && l'.tokensOut == l.tokensOut &&
              l'.tokensIn == (if e.token == "" then l.tokensIn else l.tokensIn + multiset{e.token})
            else if e.StartErr? || e.Unregister? then
              LiveToken(w') == "" && l'.tokensIn == l.tokensIn &&
              l'.tokensOut == (if LiveToken(w) == "" then l.tokensOut else l.tokensOut + multiset{LiveToken(w)})
            else
              LiveToken(w') == LiveToken(w) && l'.tokensIn == l.tokensIn && l'.tokensOut == l.tokensOut
  {
    if !e.Minted? && !e.StartErr? && !e.Unregister? {
      TokenStays(w, e, l);
    }
  }

  lemma TokenStays(w: State, e: Event, l: Ledger)
    requires LoopShape(w) && OneSession(w, l) && Enabled(w, e) && !e.Minted? && !e.StartErr? && !e.Unregister?
    ensures var w', l' := Step(w, e), StepLedger(w, e, l);
            LiveToken(w') == LiveToken(w) && l'.tokensIn == l.tokensIn && l'.tokensOut == l.tokensOut
  {
  }

  lemma TokenSums(i: multiset<string>, o: multiset<string>, t: string)
    ensures i == o + TokenBag(t) ==> (if t == "" then o else o + multiset{t}) + TokenBag("") == i
    ensures i == o + TokenBag("") ==> (if t == "" then i else i + multiset{t}) == o + TokenBag(t)
  {
  }

  lemma StepTokens(w: State, e: Event, l: Ledger)
    requires LoopShape(w) && OneSession(w, l) && TokensBalanced(w, l) && Enabled(w, e)
    ensures TokensBalanced(Step(w, e), StepLedger(w, e, l))
  {
    StepTokenFlow(w, e, l);
    TokenSums(l.tokensIn, l.tokensOut, if e.Minted? then e.token else LiveToken(w));
  }

  lemma ChannelSums(d: seq<Job>, h: seq<Job>, q: seq<Job>, h': seq<Job>, q': seq<Job>)
    ensures h == [] && q == h' + q' ==> d + h + q == d + h' + q'
    ensures h' == [] && q' == q ==> d + h + q == (d + h) + h' + q'
  {
  }

  lemma StepChannelOrder(w: State, e: Event, l: Ledger)
    requires LoopShape(w) && ChannelOrder(w, l) && Enabled(w, e)
    ensures ChannelOrder(Step(w, e), StepLedger(w, e, l))
  {
    StepEffects(w, e, l);
    StepTimer(w, e);
    ChannelSums(l.dones, w.pc.InHand(), w.queue, Step(w, e).pc.InHand(), Step(w, e).queue);
  }

  lemma StepOneSession(w: State, e: Event, l: Ledger)
    requires LoopShape(w) && OneSession(w, l) && Enabled(w, e)
    ensures OneSession(Step(w, e), StepLedger(w, e, l))
  {
  }

  lemma OpeningFirstPush(ps: seq<Prompt>, p: Prompt, opening: string)
    requires OpeningFirst(ps, opening)
    requires p.body == if opening != "" && NoneOk(ps, |ps|) then opening else p.job.text
    ensures OpeningFirst(ps + [p], opening)
    ensures NoneOk(ps + [p], |ps| + 1) <==> NoneOk(ps, |ps|) && !p.ok
  {
    var qs := ps + [p];
    forall i | 0 <= i <= |ps| ensures NoneOk(ps, i) == NoneOk(qs, i) {
      assert forall k :: 0 <= k < i ==> qs[k] == ps[k];
    }
    assert qs[|ps|] == p;
  }

  lemma StepPromptShape(w: State, e: Event, l: Ledger)
    requires LoopShape(w) && OneSession(w, l) && PromptShape(w, l) && Enabled(w, e)
    ensures PromptShape(Step(w, e), StepLedger(w, e, l))
  {
    if e.Answered? {
      OpeningFirstPush(l.prompts, Prompt(w.pc.job, NextBody(w), e.ok), w.body);
    } else {
      assert StepLedger(w, e, l).prompts == l.prompts;
    }
  }

  /** The jobs of a worker that are over or about to be answered. */
  function Answerable(w: State, l: Ledger): seq<Job> {
    if w.pc.Reply? then l.dones + [w.pc.job] else l.dones
  }

  lemma StepPromptFlow(w: State, e: Event, l: Ledger)
    requires LoopShape(w) && Enabled(w, e)
    ensures var w', l' := Step(w, e), StepLedger(w, e, l);
            if e.Answered? then
              !w.pc.Reply? && Answerable(w', l') == l.dones + [w.pc.job] &&
              l'.prompts == l.prompts + [Prompt(w.pc.job, NextBody(w), e.ok)]
            else
              l'.prompts == l.prompts &&
              Answerable(w', l') == (if Finishes(e) && !e.Replied? then Answerable(w, l) + [w.pc.job] else Answerable(w, l))
  {
    if Finishes(e) {
      FinishPromptFlow(w, e, l);
    } else if !e.Answered? {
      OnwardPromptFlow(w, e, l);
    }
  }

  lemma FinishPromptFlow(w: State, e: Event, l: Ledger)
    requires Enabled(w, e) && Finishes(e)
    ensures StepLedger(w, e, l).prompts == l.prompts
    ensures Answerable(Step(w, e), StepLedger(w, e, l)) == if e.Replied? then Answerable(w, l) else Answerable(w, l) + [w.pc.job]
  {
  }

  lemma OnwardPromptFlow(w: State, e: Event, l: Ledger)
    requires Enabled(w, e) && !Finishes(e) && !e.Answered?
    ensures StepLedger(w, e, l).prompts == l.prompts && Answerable(Step(w, e), StepLedger(w, e, l)) == Answerable(w, l)
  {
  }

  lemma StepPromptOrder(w: State, e: Event, l: Ledger)
    requires LoopShape(w) && PromptOrder(w, l) && Enabled(w, e)
    ensures PromptOrder(Step(w, e), StepLedger(w, e, l))
  {
    StepPromptFlow(w, e, l);
    if e.Answered? {
      PromptJobsPush(l.prompts, Prompt(w.pc.job, NextBody(w), e.ok));
    }
    if e.Answered? || (Finishes(e) && !e.Replied?) {
      SubsequenceGrow(PromptJobs(l.prompts), Answerable(w, l), w.pc.job);
    }
  }

  lemma StepWins(w: State, e: Event, l: Ledger)
    requires Enabled(w, e)
    ensures var w', l' := Step(w, e), StepLedger(w, e, l);
            if e.Answered? then l'.wins == l.wins && WinInHand(w) == [] && WinInHand(w') == if e.ok then [w.pc.job] else []
            else if e.Replied? then l'.wins == l.wins + WinInHand(w) && WinInHand(w') == []
            else l'.wins == l.wins && WinInHand(w) == [] && WinInHand(w') == []
  {
    if Finishes(e) {
      FinishWins(w, e, l);
    }
  }

  lemma FinishWins(w: State, e: Event, l: Ledger)
    requires Enabled(w, e) && Finishes(e)
    ensures var w', l' := Step(w, e), StepLedger(w, e, l);
            && WinInHand(w') == []
            && if e.Replied? then l'.wins == l.wins + WinInHand(w) else l'.wins == l.wins && WinInHand(w) == []
  {
  }

  /** A success is reported exactly for a job whose prompt succeeded. */
  lemma StepTruthful(w: State, e: Event, l: Ledger)
    requires LoopShape(w) && Truthful(w, l) && Enabled(w, e)
    ensures Truthful(Step(w, e), StepLedger(w, e, l))
  {
    StepWins(w, e, l);
    StepPromptFlow(w, e, l);
    if e.Answered? {
      WinnersPush(l.prompts, Prompt(w.pc.job, NextBody(w), e.ok));
      assert l.wins + [] == l.wins;
    }
  }

  /** The invariant survives every event the goroutine can perform. */
  lemma StepInv(w: State, e: Event)
    requires Inv(w) && Enabled(w, e)
    ensures Inv(Step(w, e))
  {
    var l := Read(w.trace);
    StepRead(w, e);
    StepBalanced(w, e, l);
    StepTokens(w, e, l);
    StepChannelOrder(w, e, l);
    StepOneSession(w, e, l);
    StepPromptShape(w, e, l);
    StepPromptOrder(w, e, l);
    StepTruthful(w, e, l);
  }

  /** And the arrival of a message, at whatever moment it comes. */
  lemma AcceptInv(w: State, j: Job)
    requires Inv(w)
    ensures Inv(Accept(w, j))
  {
    ReadPush(w.trace, Sent(j));
  }

  /** Reading of `PromptShape`: an opening block that ends at its first success, then only the jobs' own texts. */
  lemma OpeningBlock(w: State) returns (n: nat)
    requires Inv(w) && w.body != ""
    ensures var l := Read(w.trace);
            && n <= |l.prompts|
            && (forall i :: 0 <= i < n ==> l.prompts[i].body == w.body)
            && (forall i :: 0 <= i < n - 1 ==> !l.prompts[i].ok)
            && (forall i :: n <= i < |l.prompts| ==> l.prompts[i].body == l.prompts[i].job.text)
            && (w.bootDone <==> n > 0 && l.prompts[n - 1].ok)
            && (!w.bootDone ==> n == |l.prompts|)
  {
    n := FirstOk(Read(w.trace).prompts);
  }

  /** Just past the first success, or the whole length when there is none. */
  lemma FirstOk(ps: seq<Prompt>) returns (n: nat)
    ensures n <= |ps|
    ensures forall i :: 0 <= i < n ==> NoneOk(ps, i)
    ensures forall i :: n <= i < |ps| ==> !NoneOk(ps, i)
    ensures NoneOk(ps, |ps|) <==> n == 0 || !ps[n - 1].ok
    ensures NoneOk(ps, |ps|) ==> n == |ps|
  {
    if NoneOk(ps, |ps|) {
      n := |ps|;
    } else {
      n := 1;
      while !ps[n - 1].ok
        invariant 1 <= n <= |ps|
        invariant NoneOk(ps, n - 1)
        decreases |ps| - n
      {
        if n == |ps| {
          assert NoneOk(ps, |ps|);
        }
        n := n + 1;
      }
    }
  }
}
