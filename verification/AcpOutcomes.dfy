/** What becomes of a call: responses get through, closes wake up, and each event touches its own call only. */
module AcpOutcomes {
  import opened Wrappers
  import opened Correlation
  import opened AcpClient

  // ---- a response reaches its caller ----

  predicate Listening(s: State, c: nat) {
    At(s, c, Waiting) && Id(c) in s.sh.pending
  }

  function Delivery(c: nat, r: Response): seq<Event> {
    [Match(r)] + ([Put] + ([Receive(c)] + ([Finish(c)] + [])))
  }

  /** A response to a waiting call: read, put in the channel, received, returned as it was; nobody else is touched. */
  lemma ResponseReturns(s: State, c: nat, r: Response)
    requires Inv(s) && s.reader.Scanning? && Listening(s, c) && r.id == Id(c)
    ensures Valid(s, Delivery(c, r))
    ensures Run(s, Delivery(c, r)) ==
            s.(calls := s.calls[c := Back(Value(r))],
               sh := s.sh.(pending := s.sh.pending - {r.id}, chans := s.sh.chans[c := Chan(None, false)]))
  {
    NoCloseFault(s);
    assert CallInv(s, c) && s.sh.pending[r.id] == c;
    var s1 := Step(s, Match(r));
    var s2 := Step(s1, Put);
    assert s2.sh.chans[c] == Chan(Some(r), false);
    var s3 := Step(s2, Receive(c));
    var s4 := Step(s3, Finish(c));
    PrependRun(s3, Finish(c), [], Step);
    PrependRun(s2, Receive(c), [Finish(c)] + [], Step);
    PrependRun(s1, Put, [Receive(c)] + ([Finish(c)] + []), Step);
    PrependRun(s, Match(r), [Put] + ([Receive(c)] + ([Finish(c)] + [])), Step);
    assert s4.calls == s.calls[c := Back(Value(r))];
    assert s4.sh.pending == s.sh.pending - {r.id};
    assert s4.sh.chans == s.sh.chans[c := Chan(None, false)];
  }

  /** A response whose id nobody waits for changes nothing. */
  lemma UnlistedIsIgnored(s: State, r: Response)
    requires Enabled(s, Match(r))
    ensures Step(s, Match(r)) == s <==> r.id !in s.sh.pending
  {
    if r.id in s.sh.pending {
      assert Step(s, Match(r)).reader.Holding?;
    }
  }

  /** Where a call can stand once its response was read. */
  predicate MatchedPc(p: Pc, r: Response) {
    p in {Sending, Waiting, Got(r), Back(Value(r)), Back(Cancelled), Back(NotSent)}
  }

  /** Off the table, and the table's verdict is this response. */
  predicate MatchedCall(s: State, c: nat, r: Response) {
    && c < |s.calls| && c in s.sh.chans && Id(c) !in s.sh.pending
    && VerdictOf(s, c) == Answered(r) && MatchedPc(s.calls[c], r)
  }

  lemma StepMatched(s: State, e: Event, c: nat, r: Response)
    requires Inv(s) && Enabled(s, e) && MatchedCall(s, c, r)
    ensures MatchedCall(Step(s, e), c, r)
  {
    VerdictKept(s, e, c);
    assert CallInv(s, c);
  }

  lemma {:induction false} RunMatched(s: State, es: seq<Event>, c: nat, r: Response)
    requires Inv(s) && Valid(s, es) && MatchedCall(s, c, r)
    ensures MatchedCall(Run(s, es), c, r)
    decreases |es|
  {
    if es != [] {
      StepInv(s, es[0]);
      StepMatched(s, es[0], c, r);
      RunMatched(Step(s, es[0]), es[1..], c, r);
    }
  }

  /** A response that was read for a listed call is never lost: in every continuation it is what the call can still return. */
  lemma MatchedFate(s: State, r: Response, es: seq<Event>)
    requires Inv(s) && Enabled(s, Match(r)) && r.id in s.sh.pending && Valid(Step(s, Match(r)), es)
    ensures MatchedCall(Run(Step(s, Match(r)), es), r.id - 1, r)
  {
    assert CallInv(s, r.id - 1);
    StepInv(s, Match(r));
    RunMatched(Step(s, Match(r)), es, r.id - 1, r);
  }

  // ---- a close wakes every waiter ----

  /** Closing the table, or a read error, lets every listed waiter go with a failure that says whether one is latched. */
  lemma CloseWakes(s: State, c: nat, e: Event)
    requires Inv(s) && Listening(s, c) && Enabled(s, e) && (e.ClosePending? || e.ScanErr?)
    ensures var es := [e] + ([Receive(c)] + []);
            && Valid(s, es)
            && At(Run(s, es), c, Back(ReadFailure(s.sh.readErr || e.ScanErr?)))
            && Run(s, es).sh.pending == map[]
  {
    NoCloseFault(s);
    InTable(s, c);
    assert CallInv(s, c);
    var s1 := Step(s, e);
    assert s1.sh.chans[c] == Chan(None, true);
    assert Enabled(s1, Receive(c));
    PrependRun(s1, Receive(c), [], Step);
    PrependRun(s, e, [Receive(c)] + [], Step);
  }

  // ---- the other ways in and out ----

  /** The call an event belongs to. */
  function CallerOf(e: Event): Option<nat> {
    match e
    case EncodeErr(c) => Some(c)
    case Enter(c) => Some(c)
    case SendOk(c) => Some(c)
    case SendErr(c) => Some(c)
    case CtxDone(c) => Some(c)
    case Receive(c) => Some(c)
    case Finish(c) => Some(c)
    case _ => None
  }

  /** An event moves its own call and no other; a new call is the only one that appears. */
  lemma OthersUntouched(s: State, e: Event)
    requires Enabled(s, e)
    ensures forall c :: 0 <= c < |s.calls| && CallerOf(e) != Some(c) ==> Step(s, e).calls[c] == s.calls[c]
    ensures |Step(s, e).calls| == |s.calls| + if e.Begin? then 1 else 0
    ensures e.Begin? ==> At(Step(s, e), |s.calls|, Fresh)
  {
  }

  /** A call that enters is refused exactly if a read error is latched; otherwise it is listed and about to send. */
  lemma EntersIff(s: State, c: nat)
    requires Inv(s) && Enabled(s, Enter(c))
    ensures var s' := Step(s, Enter(c));
            && s'.calls[c] == (if s.sh.readErr then Back(Refused) else Sending)
            && s'.sh.pending == (if s.sh.readErr then s.sh.pending else s.sh.pending[Id(c) := c])
            && (!s.sh.readErr ==> c !in s.sh.chans && s'.sh.chans == s.sh.chans[c := Chan(None, false)])
  {
    assert CallInv(s, c);
  }

  /** A caller that gives up, or cannot send, leaves the table; all other entries and all channels stay. */
  lemma GivesUp(s: State, c: nat, e: Event)
    requires Inv(s) && Enabled(s, e) && (e == CtxDone(c) || e == SendErr(c))
    ensures var s' := Step(s, e);
            && s'.calls[c] == Back(if e.CtxDone? then Cancelled else NotSent)
            && s'.sh.pending == s.sh.pending - {Id(c)} && s'.sh.chans == s.sh.chans && s'.reader == s.reader
  {
  }

  /** A call that is sent waits for its response, and a request that cannot be encoded is not sent. */
  lemma Sends(s: State, c: nat)
    ensures Enabled(s, SendOk(c)) ==> At(Step(s, SendOk(c)), c, Waiting) && Step(s, SendOk(c)).sh == s.sh
    ensures Enabled(s, EncodeErr(c)) ==> At(Step(s, EncodeErr(c)), c, Back(NotSent)) && Step(s, EncodeErr(c)).sh == s.sh
  {
  }
}
