/** What becomes of a request: responses get through, a close wakes up, and each event touches its own request only. */
module CodexRequestOutcomes {
  import opened Wrappers
  import opened Correlation
  import opened CodexRequests

  predicate Listening(s: State, c: nat) {
    At(s, c, Waiting) && Id(c) in s.sh.pending
  }

  function Delivery(c: nat, r: Response): seq<Event> {
    [Match(r)] + ([Put] + ([Receive(c)] + []))
  }

  /** A response to a waiting request: read, sent, received and returned as it was; nobody else is touched. */
  lemma ResponseReturns(s: State, c: nat, r: Response)
    requires Inv(s) && s.reader.Scanning? && Listening(s, c) && r.id == Id(c)
    ensures Valid(s, Delivery(c, r))
    ensures Run(s, Delivery(c, r)) ==
            s.(calls := s.calls[c := Back(Value(r))],
               sh := s.sh.(pending := s.sh.pending - {r.id}, chans := s.sh.chans[c := None]))
  {
    NothingDropped(s);
    assert CallInv(s, c) && s.sh.pending[r.id] == c;
    var s1 := Step(s, Match(r));
    var s2 := Step(s1, Put);
    var s3 := Step(s2, Receive(c));
    PrependRun(s2, Receive(c), [], Step);
    PrependRun(s1, Put, [Receive(c)] + [], Step);
    PrependRun(s, Match(r), [Put] + ([Receive(c)] + []), Step);
    assert s3.calls == s.calls[c := Back(Value(r))];
    assert s3.sh.chans == s.sh.chans[c := None];
  }

  /** A response whose id nobody waits for changes nothing. */
  lemma UnlistedIsIgnored(s: State, r: Response)
    requires Enabled(s, Match(r))
    ensures Step(s, Match(r)) == s <==> r.id !in s.sh.pending
  {
    if r.id in s.sh.pending {
      assert Step(s, Match(r)).reader.Holding?;
    }
  }

  /** Off the table, the table's verdict is this response, and nothing else can be returned but a request's own giving up. */
  predicate MatchedCall(s: State, c: nat, r: Response) {
    && c < |s.calls| && c in s.sh.chans && Id(c) !in s.sh.pending
    && VerdictOf(s, c) == Answered(r)
    && s.calls[c] in {Writing, Waiting, Back(Value(r)), Back(Cancelled), Back(NotSent)}
  }

  lemma StepMatched(s: State, e: Event, c: nat, r: Response)
    requires Inv(s) && Enabled(s, e) && MatchedCall(s, c, r)
    ensures MatchedCall(Step(s, e), c, r)
  {
    VerdictKept(s, e, c);
    assert CallInv(s, c);
  }

  lemma {:induction false} RunMatched(s: State, es: seq<Event>, c: nat, r: Response)
    requires Inv(s) && Valid(s, es) && MatchedCall(s, c, r)
    ensures MatchedCall(Run(s, es), c, r)
    decreases |es|
  {
    if es != [] {
      StepInv(s, es[0]);
      StepMatched(s, es[0], c, r);
      RunMatched(Step(s, es[0]), es[1..], c, r);
    }
  }

  /** A response that was read for a listed request is never lost, in any continuation. */
  lemma MatchedFate(s: State, r: Response, es: seq<Event>)
    requires Inv(s) && Enabled(s, Match(r)) && r.id in s.sh.pending && Valid(Step(s, Match(r)), es)
    ensures MatchedCall(Run(Step(s, Match(r)), es), r.id - 1, r)
  {
    assert CallInv(s, r.id - 1);
    StepInv(s, Match(r));
    RunMatched(Step(s, Match(r)), es, r.id - 1, r);
  }

  /** A close lets every listed waiter go. */
  lemma CloseWakes(s: State, c: nat)
    requires Inv(s) && Listening(s, c)
    ensures var es := [CloseAllPending] + ([Receive(c)] + []);
            Valid(s, es) && At(Run(s, es), c, Back(Closed)) && Run(s, es).sh.pending == map[]
  {
    NothingDropped(s);
    InTable(s, c);
    assert CallInv(s, c);
    var s1 := Step(s, CloseAllPending);
    assert s1.sh.chans[c] == Some(Closing);
    assert Enabled(s1, Receive(c));
    PrependRun(s1, Receive(c), [], Step);
    PrependRun(s, CloseAllPending, [Receive(c)] + [], Step);
  }

  /** The request an event belongs to. */
  function CallerOf(e: Event): Option<nat> {
    match e
    case WriteOk(c) => Some(c)
    case WriteErr(c) => Some(c)
    case CtxDone(c) => Some(c)
    case Receive(c) => Some(c)
    case _ => None
  }

  /** An event moves its own request and no other; a new request is the only one that appears. */
  lemma OthersUntouched(s: State, e: Event)
    requires Enabled(s, e)
    ensures forall c :: 0 <= c < |s.calls| && CallerOf(e) != Some(c) ==> Step(s, e).calls[c] == s.calls[c]
    ensures |Step(s, e).calls| == |s.calls| + if e.Begin? then 1 else 0
  {
  }

  /** A request that gives up, or cannot be written, leaves the table; all other entries and all channels stay. */
  lemma GivesUp(s: State, c: nat, e: Event)
    requires Inv(s) && Enabled(s, e) && (e == CtxDone(c) || e == WriteErr(c))
    ensures var s' := Step(s, e);
            && s'.calls[c] == Back(if e.CtxDone? then Cancelled else NotSent)
            && s'.sh.pending == s.sh.pending - {Id(c)} && s'.sh.chans == s.sh.chans && s'.reader == s.reader
  {
  }
}
