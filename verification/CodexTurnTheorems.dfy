/** What a turn's caller can rely on, and what it cannot. */
module CodexTurnTheorems {
  import opened Wrappers
  import opened CodexAnswer
  import opened CodexTurn
  import opened CodexTurnInv
  import Strings = Text

  lemma {:induction false} RunInv(s: State, es: seq<Event>)
    requires Inv(s) && Valid(s, es)
    ensures Inv(Run(s, es))
    decreases |es|
  {
    if es != [] {
      StepInv(s, es[0]);
      RunInv(Step(s, es[0]), es[1..]);
    }
  }

  /** First wins: over any run of lines and turns no turn's channel gets a second completion, and none is dropped. */
  lemma OneCompletionPerTurn(threadID: string, es: seq<Event>, i: nat, j: nat)
    requires Valid(Init(threadID), es)
    ensures var c := Run(Init(threadID), es).c;
            !c.dropped && (i < j < |c.sent| ==> c.sent[i].turn != c.sent[j].turn)
  {
    InitInv(threadID);
    RunInv(Init(threadID), es);
  }

  /** Dispatch mode: handled notifications are a run of raw ones followed by a run of legacy ones. */
  lemma RawThenLegacy(threadID: string, es: seq<Event>, i: nat, j: nat)
    requires Valid(Init(threadID), es)
    ensures var h := Run(Init(threadID), es).c.handled;
            i < j < |h| && h[i].Legacy? ==> h[j].Legacy?
  {
    InitInv(threadID);
    RunInv(Init(threadID), es);
  }

  /** A turn that returns text was completed by a line that neither aborted it nor reported a failure. */
  lemma TextMeansSuccess(threadID: string, es: seq<Event>) returns (i: nat)
    requires Valid(Init(threadID), es)
    requires Run(Init(threadID), es).pc.Back? && Run(Init(threadID), es).pc.out.Text?
    ensures var c := Run(Init(threadID), es).c;
            i < |c.sent| && c.sent[i].turn == c.turn && !c.sent[i].fin.aborted && !c.sent[i].failing
  {
    InitInv(threadID);
    RunInv(Init(threadID), es);
    var c := Run(Init(threadID), es).c;
    i :| i < |c.sent| && c.sent[i].turn == c.turn && c.sent[i].fin == Finished(false);
  }

  /** The verdict on a received completion: aborted, else the first error since the turn began, else text. */
  lemma VerdictOnCompletion(s: State)
    requires Inv(s) && s.pc.Judge?
    ensures Step(s, Next).pc ==
            if s.pc.fin.aborted then Back(Aborted)
            else if s.c.errors != [] then Back(TurnFailed(s.c.errors[0]))
            else ReadText
    ensures (exists i :: 0 <= i < |s.c.sent| && s.c.sent[i].turn == s.c.turn && s.c.sent[i].failing) ==>
              Step(s, Next).pc.Back? && !Step(s, Next).pc.out.Text?
  {
  }

  // ---- when a turn can be completed at all ----

  predicate SameTurn(es: seq<Event>) {
    Begin !in es
  }

  predicate GaveUp(pc: Pc) {
    pc.Back? && (pc.out.RequestFailed? || pc.out.TimedOut?)
  }

  lemma {:induction false} LateIsSwallowed(s: State, es: seq<Event>)
    requires Inv(s) && s.late && (s.pc.Unanswered() || GaveUp(s.pc)) && Valid(s, es) && SameTurn(es)
    ensures Run(s, es).pc.Unanswered() || GaveUp(Run(s, es).pc)
    decreases |es|
  {
    if es != [] {
      assert es[0] in es;
      StepInv(s, es[0]);
      LateIsSwallowed(Step(s, es[0]), es[1..]);
    }
  }

  ghost predicate CanComplete(s: State) {
    exists es :: Valid(s, es) && SameTurn(es) && Run(s, es).pc.ClearWait?
  }

  function Distance(pc: Pc): nat {
    match pc
    case ResetOutput => 6
    case ResetFallback => 5
    case ResetFinal => 4
    case Request => 3
    case Wait => 2
    case _ => 0
  }

  lemma {:induction false} ReachCompletion(s: State) returns (es: seq<Event>)
    requires Inv(s) && s.pc.Unanswered() && !s.late
    ensures Valid(s, es) && SameTurn(es) && Run(s, es).pc.ClearWait?
    decreases Distance(s.pc), if s.c.mail.Some? then 0 else 1
  {
    var e := if !s.pc.Wait? then Next else if s.c.mail.Some? then Receive else Line(CodexEvent(Some(TaskComplete)));
    StepInv(s, e);
    var rest := [];
    if e != Receive {
      rest := ReachCompletion(Step(s, e));
    } else {
      assert Run(Step(s, e), rest) == Step(s, e);
    }
    es := [e] + rest;
    assert es[1..] == rest;
  }

  /** A turn whose channel is in place can complete exactly when no completion was signalled before it was. */
  lemma CompletableIff(s: State)
    requires Inv(s) && s.pc.Unanswered()
    ensures CanComplete(s) <==> !s.late
  {
    if !s.late {
      var es := ReachCompletion(s);
    } else {
      forall es | Valid(s, es) && SameTurn(es) ensures !Run(s, es).pc.ClearWait? {
        LateIsSwallowed(s, es);
      }
    }
  }

  /** Such a turn is reachable: a completion handled just after runTurn's first statement. */
  lemma SwallowedTurn(threadID: string)
    ensures exists es :: Valid(Init(threadID), es) && Run(Init(threadID), es).pc == Wait && Run(Init(threadID), es).late
  {
    var s0 := Init(threadID);
    var l := Line(CodexEvent(Some(TaskComplete)));
    var s2 := Step(Step(s0, Begin), l);
    assert s2.c.turnSeen && s2.pc == ClearErr;
    var rest := NextsToWait(s2);
    var es := [Begin, l] + rest;
    assert es[1..] == [l] + rest && es[1..][1..] == rest;
    assert Valid(s2, rest) && Valid(Step(s0, Begin), es[1..]);
    assert Run(s0, es) == Run(s2, rest);
  }

  lemma NextsToWait(s: State) returns (es: seq<Event>)
    requires s.pc == ClearErr
    ensures Valid(s, es) && Run(s, es).pc == Wait && Run(s, es).late == s.c.turnSeen
  {
    var s1 := Step(s, Next);
    var s2 := Step(s1, Next);
    var s3 := Step(s2, Next);
    var s4 := Step(s3, Next);
    var s5 := Step(s4, Next);
    var s6 := Step(s5, Next);
    var s7 := Step(s6, Next);
    assert s7.pc == Wait && s7.late == s.c.turnSeen;
    es := Prepend(s6, Next, []);
    es := Prepend(s5, Next, es);
    es := Prepend(s4, Next, es);
    es := Prepend(s3, Next, es);
    es := Prepend(s2, Next, es);
    es := Prepend(s1, Next, es);
    es := Prepend(s, Next, es);
  }

  lemma Prepend(s: State, e: Event, rest: seq<Event>) returns (es: seq<Event>)
    requires Enabled(s, e) && Valid(Step(s, e), rest)
    ensures Valid(s, es) && Run(s, es) == Run(Step(s, e), rest)
  {
    es := [e] + rest;
    assert es[1..] == rest;
  }

  // ---- turns are not told apart by id ----

  /** Exactly when a turn/completed line completes the turn that waits; which turn the id belongs to plays no part. */
  lemma CompletesWaitingIff(s: State, th: Option<string>, id: string, st: TurnStatus, em: string)
    requires Inv(s) && s.pc.Wait? && s.c.mail.None?
    ensures var m := Step(s, Line(TurnCompleted(th, id, st, em))).c.mail;
            && (m.Some? <==> !s.c.turnSeen && !s.c.proto.Legacy? && !ForeignThread(s.c, th) && (id == "" || id !in s.c.completed))
            && (m.Some? ==> m.value == Finished(st.AbortedStatus?))
  {
    assert s.c.waiting;
  }

  lemma {:induction false} RunConcat(s: State, es: seq<Event>, fs: seq<Event>)
    requires Valid(s, es) && Valid(Run(s, es), fs)
    ensures Valid(s, es + fs) && Run(s, es + fs) == Run(Run(s, es), fs)
    decreases |es|
  {
    if es == [] {
      assert es + fs == fs;
    } else {
      RunConcat(Step(s, es[0]), es[1..], fs);
      assert (es + fs)[1..] == es[1..] + fs;
    }
  }

  lemma Extend(s: State, es: seq<Event>, cur: State, e: Event) returns (t: State)
    requires Valid(s, es) && Run(s, es) == cur && Enabled(cur, e)
    ensures t == Step(cur, e) && Valid(s, es + [e]) && Run(s, es + [e]) == t
  {
    One(cur, e);
    RunConcat(s, es, [e]);
    t := Step(cur, e);
  }

  /** A turn that is begun and not disturbed waits for its completion, with nothing recorded. */
  function Undisturbed(): seq<Event> {
    [Begin, Next, Next, Next, Next, Next, Next, Next]
  }

  function Waiting(c: Conn): State {
    State(c.(turnSeen := false, turn := c.turn + 1, turnErr := "", errors := [], completed := {}, waiting := true,
             mail := None, answer := NOTHING), Wait, false)
  }

  lemma ReachWaiting(s: State)
    requires s.pc.Off? || s.pc.Back?
    ensures Valid(s, Undisturbed()) && Run(s, Undisturbed()) == Waiting(s.c)
  {
    var t := Step(s, Begin);
    var mid := [Next, Next, Next];
    var t3 := Step(Step(Step(t, Next), Next), Next);
    assert t3.pc == ResetOutput;
    Three(t);
    Three(t3);
    var t6 := Step(Step(Step(t3, Next), Next), Next);
    assert t6.pc == Request;
    One(t6, Next);
    RunConcat(t3, mid, [Next]);
    RunConcat(t, mid, mid + [Next]);
    One(s, Begin);
    RunConcat(s, [Begin], mid + (mid + [Next]));
    assert Undisturbed() == [Begin] + (mid + (mid + [Next]));
  }

  lemma One(s: State, e: Event)
    requires Enabled(s, e)
    ensures Valid(s, [e]) && Run(s, [e]) == Step(s, e)
  {
    assert [e][1..] == [];
    assert Run(Step(s, e), []) == Step(s, e);
  }

  lemma Three(s: State)
    requires s.pc == ClearErr || s.pc == ResetOutput
    ensures Valid(s, [Next, Next, Next]) && Run(s, [Next, Next, Next]) == Step(Step(Step(s, Next), Next), Next)
  {
    var s1 := Step(s, Next);
    var s2 := Step(s1, Next);
    One(s, Next);
    One(s1, Next);
    One(s2, Next);
    RunConcat(s1, [Next], [Next]);
    RunConcat(s, [Next], [Next] + [Next]);
    assert [Next] + ([Next] + [Next]) == [Next, Next, Next];
  }

  /** After a completion was delivered: receive it, clear the channel, judge, read the text. */
  function Conclusion(): seq<Event> {
    [Receive, Next, Next, Next]
  }

  lemma Concludes(s: State)
    requires s.pc == Wait && s.c.mail == Some(Finished(false)) && s.c.turnErr == ""
    ensures Valid(s, Conclusion())
    ensures Run(s, Conclusion()) ==
            State(s.c.(mail := None, waiting := false), Back(Text(Facing(s.c.answer))), s.late)
  {
    var s1 := Step(s, Receive);
    var s2 := Step(s1, Next);
    var s3 := Step(s2, Next);
    assert s3.pc == ReadText;
    One(s, Receive);
    One(s1, Next);
    One(s2, Next);
    One(s3, Next);
    RunConcat(s2, [Next], [Next]);
    RunConcat(s1, [Next], [Next] + [Next]);
    RunConcat(s, [Receive], [Next] + ([Next] + [Next]));
    assert Conclusion() == [Receive] + ([Next] + ([Next] + [Next]));
  }

  function CompletedLine(id: string): Event {
    Line(TurnCompleted(None, id, OtherStatus, ""))
  }

  /** The first turn times out; its turn/completed arrives while the second turn waits, and the second turn returns. */
  lemma LateLineFinishesNextTurn(threadID: string, id: string)
    ensures var es := Undisturbed() + [CtxDone] + Undisturbed() + [CompletedLine(id)] + Conclusion();
            && Valid(Init(threadID), es)
            && Run(Init(threadID), es).c.turn == 2
            && Run(Init(threadID), es).pc == Back(Text(PLACEHOLDER))
  {
    var s := Init(threadID);
    ReachWaiting(s);
    var s1 := Waiting(s.c);
    One(s1, CtxDone);
    RunConcat(s, Undisturbed(), [CtxDone]);
    var s2 := Step(s1, CtxDone);
    ReachWaiting(s2);
    RunConcat(s, Undisturbed() + [CtxDone], Undisturbed());
    FinishedBy(s, Undisturbed() + [CtxDone] + Undisturbed(), Waiting(s2.c), id);
  }

  /** A line that has already completed the first turn completes the second one when it is repeated. */
  lemma RepeatedLineFinishesNextTurn(threadID: string, id: string)
    ensures var first := Undisturbed() + [CompletedLine(id)] + Conclusion();
            var es := first + Undisturbed() + [CompletedLine(id)] + Conclusion();
            && Valid(Init(threadID), first) && Run(Init(threadID), first).pc == Back(Text(PLACEHOLDER))
            && Valid(Init(threadID), es) && Run(Init(threadID), es).c.turn == 2
            && Run(Init(threadID), es).pc == Back(Text(PLACEHOLDER))
  {
    var s := Init(threadID);
    var first := Undisturbed() + [CompletedLine(id)] + Conclusion();
    ReachWaiting(s);
    FinishedBy(s, Undisturbed(), Waiting(s.c), id);
    var s2 := Run(s, first);
    ReachWaiting(s2);
    RunConcat(s, first, Undisturbed());
    FinishedBy(s, first + Undisturbed(), Waiting(s2.c), id);
  }

  lemma FinishedBy(s: State, es: seq<Event>, w: State, id: string)
    requires w.c.turn > 0 && w == Waiting(w.c.(turn := w.c.turn - 1)) && !w.c.proto.Legacy? && Valid(s, es) && Run(s, es) == w
    ensures var fs := es + [CompletedLine(id)] + Conclusion();
            && Valid(s, fs)
            && Run(s, fs).pc == Back(Text(PLACEHOLDER)) && Run(s, fs).c.turn == w.c.turn && !Run(s, fs).c.proto.Legacy?
  {
    var d := Step(w, CompletedLine(id));
    One(w, CompletedLine(id));
    RunConcat(s, es, [CompletedLine(id)]);
    Concludes(d);
    RunConcat(s, es + [CompletedLine(id)], Conclusion());
  }

  // ---- the text of a turn ----

  /** The agent messages a line records. */
  function Recorded(c: Conn, n: Note): seq<Message> {
    match n
    case CodexEvent(Some(AgentMessage(t, ph))) => if t == "" then [] else [Message(t, ph)]
    case AgentItem(th, t, ph) => if c.proto.Legacy? || ForeignThread(c, th) then [] else [Message(t, ph)]
    case _ => []
  }

  function Messages(s: State, es: seq<Event>): seq<Message>
    requires Valid(s, es)
    decreases |es|
  {
    if es == [] then []
    else (if es[0].Line? then Recorded(s.c, es[0].n) else []) + Messages(Step(s, es[0]), es[1..])
  }

  lemma {:induction false} RecordAllAppend(a: Answer, ms: seq<Message>, ns: seq<Message>)
    ensures RecordAll(a, ms + ns) == RecordAll(RecordAll(a, ms), ns)
    decreases |ns|
  {
    if ns == [] {
      assert ms + ns == ms;
    } else {
      var k := |ns| - 1;
      assert (ms + ns)[..|ms + ns| - 1] == ms + ns[..k];
      RecordAllAppend(a, ms, ns[..k]);
    }
  }

  lemma LineRecords(c: Conn, n: Note)
    ensures Handle(c, n).answer == RecordAll(c.answer, Recorded(c, n))
  {
    if Recorded(c, n) != [] {
      var m := Recorded(c, n)[0];
      assert Recorded(c, n) == [m] && [m][..0] == [];
      assert RecordAll(c.answer, [m]) == Record(c.answer, m);
    }
  }

  predicate PastResets(pc: Pc) {
    pc.Request? || pc.Wait? || pc.ClearWait? || pc.Judge? || pc.ReadText? || pc.Back?
  }

  predicate PastFallback(pc: Pc) {
    PastResets(pc) || pc.ResetFinal?
  }

  predicate PastOutput(pc: Pc) {
    PastFallback(pc) || pc.ResetFallback?
  }

  /** The messages of the lines handled while the statement to come is one of those given. */
  function Since(s: State, es: seq<Event>, p: Pc -> bool): seq<Message>
    requires Valid(s, es)
    decreases |es|
  {
    if es == [] then []
    else (if es[0].Line? && p(s.pc) then Recorded(s.c, es[0].n) else []) + Since(Step(s, es[0]), es[1..], p)
  }

  /**
   Each field of the answer holds what was recorded since that field was reset: `wo` since the output was,
   `wf` since the fallback was, `wn` since the flag was.
   */
  predicate Windows(pc: Pc, a: Answer, wo: seq<Message>, wf: seq<Message>, wn: seq<Message>) {
    && Window(PastOutput(pc), wo, a.output == RecordAll(NOTHING, wo).output)
    && Window(PastFallback(pc), wf, a.fallback == RecordAll(NOTHING, wf).fallback)
    && Window(PastResets(pc), wn, a.sawFinal == RecordAll(NOTHING, wn).sawFinal)
  }

  /** Open from the reset on, and empty before. */
  predicate Window(open: bool, w: seq<Message>, agrees: bool) {
    if open then agrees else w == []
  }

  lemma RecordOne(a: Answer, ms: seq<Message>, m: Message)
    ensures RecordAll(a, ms + [m]) == Record(RecordAll(a, ms), m)
  {
    assert (ms + [m])[..|ms|] == ms;
  }

  function Add(w: seq<Message>, open: bool, ms: seq<Message>): seq<Message> {
    if open then w + ms else w
  }

  lemma MoreInWindows(pc: Pc, a: Answer, ms: seq<Message>, wo: seq<Message>, wf: seq<Message>, wn: seq<Message>)
    requires Windows(pc, a, wo, wf, wn) && |ms| <= 1
    ensures Windows(pc, RecordAll(a, ms), Add(wo, PastOutput(pc), ms), Add(wf, PastFallback(pc), ms), Add(wn, PastResets(pc), ms))
  {
    if ms == [] {
      assert wo + ms == wo && wf + ms == wf && wn + ms == wn;
    } else {
      assert ms == [ms[0]];
      RecordSingle(a, ms[0]);
      OneMore(pc, a, ms[0], wo, wf, wn);
    }
  }

  lemma RecordSingle(a: Answer, m: Message)
    ensures RecordAll(a, [m]) == Record(a, m)
  {
    assert [] + [m] == [m];
    RecordOne(a, [], m);
  }

  lemma OneMore(pc: Pc, a: Answer, m: Message, wo: seq<Message>, wf: seq<Message>, wn: seq<Message>)
    requires Windows(pc, a, wo, wf, wn)
    ensures Windows(pc, Record(a, m), Add(wo, PastOutput(pc), [m]), Add(wf, PastFallback(pc), [m]), Add(wn, PastResets(pc), [m]))
  {
    RecordOne(NOTHING, wo, m);
    RecordOne(NOTHING, wf, m);
    RecordOne(NOTHING, wn, m);
    RecordFields(a, RecordAll(NOTHING, wo), m);
    RecordFields(a, RecordAll(NOTHING, wf), m);
    RecordFields(a, RecordAll(NOTHING, wn), m);
  }

  /** Recording treats each field by itself. */
  lemma RecordFields(a: Answer, b: Answer, m: Message)
    ensures a.output == b.output ==> Record(a, m).output == Record(b, m).output
    ensures a.fallback == b.fallback ==> Record(a, m).fallback == Record(b, m).fallback
    ensures a.sawFinal == b.sawFinal ==> Record(a, m).sawFinal == Record(b, m).sawFinal
  {
  }

  lemma LineWindows(s: State, n: Note, wo: seq<Message>, wf: seq<Message>, wn: seq<Message>)
    requires Windows(s.pc, s.c.answer, wo, wf, wn)
    ensures var s', ms := Step(s, Line(n)), Recorded(s.c, n);
            Windows(s'.pc, s'.c.answer, Add(wo, PastOutput(s.pc), ms), Add(wf, PastFallback(s.pc), ms), Add(wn, PastResets(s.pc), ms))
  {
    LineRecords(s.c, n);
    MoreInWindows(s.pc, s.c.answer, Recorded(s.c, n), wo, wf, wn);
  }

  lemma StatementWindows(s: State, e: Event, wo: seq<Message>, wf: seq<Message>, wn: seq<Message>)
    requires Windows(s.pc, s.c.answer, wo, wf, wn) && Enabled(s, e) && !e.Line? && !e.Begin?
    ensures Windows(Step(s, e).pc, Step(s, e).c.answer, wo, wf, wn)
  {
    StatementResets(s, e);
  }

  /** A statement of runTurn opens a window exactly when it clears that field, and touches no other. */
  lemma StatementResets(s: State, e: Event)
    requires Enabled(s, e) && !e.Line? && !e.Begin?
    ensures var s' := Step(s, e);
            && (PastOutput(s'.pc) <==> PastOutput(s.pc) || s.pc.ResetOutput?)
            && (PastFallback(s'.pc) <==> PastFallback(s.pc) || s.pc.ResetFallback?)
            && (PastResets(s'.pc) <==> PastResets(s.pc) || s.pc.ResetFinal?)
            && s'.c.answer == Answer(if s.pc.ResetOutput? then "" else s.c.answer.output,
                                     if s.pc.ResetFallback? then "" else s.c.answer.fallback,
                                     if s.pc.ResetFinal? then false else s.c.answer.sawFinal)
  {
  }

  lemma {:induction false} RunWindows(s: State, es: seq<Event>, wo: seq<Message>, wf: seq<Message>, wn: seq<Message>)
    requires Windows(s.pc, s.c.answer, wo, wf, wn) && Valid(s, es) && SameTurn(es)
    ensures var s' := Run(s, es);
            Windows(s'.pc, s'.c.answer, wo + Since(s, es, PastOutput), wf + Since(s, es, PastFallback), wn + Since(s, es, PastResets))
    decreases |es|
  {
    if es == [] {
      assert wo + [] == wo && wf + [] == wf && wn + [] == wn;
    } else {
      assert es[0] in es;
      var e, s', rest := es[0], Step(s, es[0]), es[1..];
      var ms := if e.Line? then Recorded(s.c, e.n) else [];
      if e.Line? {
        LineWindows(s, e.n, wo, wf, wn);
      } else {
        assert wo + ms == wo && wf + ms == wf && wn + ms == wn;
        StatementWindows(s, e, wo, wf, wn);
      }
      RunWindows(s', rest, Add(wo, PastOutput(s.pc), ms), Add(wf, PastFallback(s.pc), ms), Add(wn, PastResets(s.pc), ms));
      SinceStep(s, es, PastOutput, wo);
      SinceStep(s, es, PastFallback, wf);
      SinceStep(s, es, PastResets, wn);
    }
  }

  lemma SinceStep(s: State, es: seq<Event>, p: Pc -> bool, w: seq<Message>)
    requires Valid(s, es) && es != []
    ensures Add(w, p(s.pc), if es[0].Line? then Recorded(s.c, es[0].n) else []) + Since(Step(s, es[0]), es[1..], p) ==
            w + Since(s, es, p)
  {
    var rest := Since(Step(s, es[0]), es[1..], p);
    if es[0].Line? && p(s.pc) {
      assert (w + Recorded(s.c, es[0].n)) + rest == w + (Recorded(s.c, es[0].n) + rest);
    } else {
      assert w + [] == w && [] + rest == rest;
    }
  }

  /** What a turn begun at `s` has recorded by the events `es`, each field since its own reset. */
  function Kept(s: State, es: seq<Event>): Answer
    requires (s.pc.Off? || s.pc.Back?) && Valid(Step(s, Begin), es)
  {
    var t := Step(s, Begin);
    Answer(RecordAll(NOTHING, Since(t, es, PastOutput)).output,
           RecordAll(NOTHING, Since(t, es, PastFallback)).fallback,
           RecordAll(NOTHING, Since(t, es, PastResets)).sawFinal)
  }

  /** The answer at any point of a turn after its resets, for every interleaving: three windows, one for each reset. */
  lemma TurnAnswer(s: State, es: seq<Event>)
    requires (s.pc.Off? || s.pc.Back?) && Valid(Step(s, Begin), es) && SameTurn(es) && PastResets(Run(Step(s, Begin), es).pc)
    ensures Run(Step(s, Begin), es).c.answer == Kept(s, es)
  {
    var t := Step(s, Begin);
    RunWindows(t, es, [], [], []);
    assert [] + Since(t, es, PastOutput) == Since(t, es, PastOutput);
    assert [] + Since(t, es, PastFallback) == Since(t, es, PastFallback);
    assert [] + Since(t, es, PastResets) == Since(t, es, PastResets);
  }

  /** The text a turn returns, for every whole turn and every interleaving with the reader. */
  lemma TurnText(s: State, es: seq<Event>)
    requires (s.pc.Off? || s.pc.Back?) && Valid(Step(s, Begin), es) && SameTurn(es) && Run(Step(s, Begin), es).pc.ReadText?
    ensures Step(Run(Step(s, Begin), es), Next).pc == Back(Text(Facing(Kept(s, es))))
  {
    TurnAnswer(s, es);
    Reads(Run(Step(s, Begin), es));
  }

  lemma Reads(s: State)
    requires s.pc.ReadText?
    ensures Step(s, Next).pc == Back(Text(Facing(s.c.answer)))
  {
  }

  /** Nothing that was handled while the fields were being reset is left in them. */
  predicate CleanStart(wo: seq<Message>, wf: seq<Message>, wn: seq<Message>) {
    (forall i :: 0 <= i < |wo| && LastFinal(wo, i) ==> wo[i].text == "") && NoDraft(wf) && NoFinal(wn)
  }

  /** When the request is sent the answer is empty exactly if the lines since the three resets left nothing behind. */
  lemma EmptyAtRequestIff(s: State, es: seq<Event>)
    requires (s.pc.Off? || s.pc.Back?) && Valid(Step(s, Begin), es) && SameTurn(es) && Run(Step(s, Begin), es).pc.Request?
    ensures var t := Step(s, Begin);
            Run(t, es).c.answer == NOTHING <==>
            CleanStart(Since(t, es, PastOutput), Since(t, es, PastFallback), Since(t, es, PastResets))
  {
    var t := Step(s, Begin);
    var wo, wf, wn := Since(t, es, PastOutput), Since(t, es, PastFallback), Since(t, es, PastResets);
    TurnAnswer(s, es);
    FinalRecorded(wo);
    SelectionIsTotal(wo);
    DraftRecorded(wf);
    SelectionIsTotal(wf);
    FinalRecorded(wn);
    if i :| LastDraft(wf, i) {
      assert IsDraft(wf[i]);
    }
  }

  lemma {:induction false} AnswerIsFold(s: State, es: seq<Event>)
    requires PastResets(s.pc) && Valid(s, es) && SameTurn(es)
    ensures Run(s, es).c.answer == RecordAll(s.c.answer, Messages(s, es)) && PastResets(Run(s, es).pc)
    decreases |es|
  {
    if es != [] {
      assert es[0] in es;
      var s' := Step(s, es[0]);
      AnswerIsFold(s', es[1..]);
      if es[0].Line? {
        LineRecords(s.c, es[0].n);
        RecordAllAppend(s.c.answer, Recorded(s.c, es[0].n), Messages(s', es[1..]));
      } else {
        assert s'.c.answer == s.c.answer;
        assert [] + Messages(s', es[1..]) == Messages(s', es[1..]);
      }
    }
  }

  /** After a clean start the text is the selection (`SelectedAnswer`) from the messages recorded since the request. */
  lemma CleanTurnText(s: State, before: seq<Event>, after: seq<Event>)
    requires (s.pc.Off? || s.pc.Back?) && Valid(Step(s, Begin), before) && SameTurn(before)
    requires Run(Step(s, Begin), before).pc.Request?
    requires var t := Step(s, Begin);
             CleanStart(Since(t, before, PastOutput), Since(t, before, PastFallback), Since(t, before, PastResets))
    requires Valid(Run(Step(s, Begin), before), after) && SameTurn(after) && Run(Run(Step(s, Begin), before), after).pc.ReadText?
    ensures var r := Run(Step(s, Begin), before);
            Step(Run(r, after), Next).pc == Back(Text(Facing(RecordAll(NOTHING, Messages(r, after)))))
  {
    var r := Run(Step(s, Begin), before);
    EmptyAtRequestIff(s, before);
    AnswerIsFold(r, after);
    Reads(Run(r, after));
  }

  // ---- a line handled during the resets can be the reply ----

  /** The turn's first statements, with a final answer handled between two of the resets. */
  function Disturbed(text: string): seq<Event> {
    [Begin] + [Next, Next, Next] + [Next] + [Line(AgentItem(None, text, FinalAnswer))] + [Next] + [Next] + [Next]
  }

  lemma StaleAnswerStays(threadID: string, text: string)
    ensures Valid(Init(threadID), Disturbed(text))
    ensures var s := Run(Init(threadID), Disturbed(text));
            && s.pc == Wait && s.c.answer == Answer(text, "", false) && s.c.mail == Some(Finished(false))
            && s.c.turnErr == "" && s.c.proto.Raw? && s.c.turnSeen && s.c.threadID == threadID
  {
    var s := Init(threadID);
    One(s, Begin);
    var s1 := Step(s, Begin);
    Three(s1);
    RunConcat(s, [Begin], [Next, Next, Next]);
    var s2 := Step(Step(Step(s1, Next), Next), Next);
    var es := [Begin] + [Next, Next, Next];
    var s3 := Extend(s, es, s2, Next);
    StaleLine(s, es + [Next], s3, text);
  }

  lemma StaleLine(s: State, es: seq<Event>, s3: State, text: string)
    requires Valid(s, es) && Run(s, es) == s3 && s3.pc == ResetFallback && !s3.c.proto.Legacy?
    requires !s3.c.turnSeen && s3.c.waiting && s3.c.mail.None? && s3.c.turnErr == ""
    ensures var fs := es + [Line(AgentItem(None, text, FinalAnswer))] + [Next] + [Next] + [Next];
            && Valid(s, fs)
            && var r := Run(s, fs);
               && r.pc == Wait && r.c.answer == Answer(text, "", false) && r.c.mail == Some(Finished(false))
               && r.c.turnErr == "" && r.c.proto.Raw? && r.c.turnSeen && r.c.threadID == s3.c.threadID
  {
    var l := Line(AgentItem(None, text, FinalAnswer));
    var s4 := Extend(s, es, s3, l);
    assert s4.c.mail == Some(Finished(false)) && s4.c.answer.output == text;
    var s5 := Extend(s, es + [l], s4, Next);
    var s6 := Extend(s, es + [l] + [Next], s5, Next);
    var s7 := Extend(s, es + [l] + [Next] + [Next], s6, Next);
  }

  /** The final answer of an earlier turn comes in between two reset statements: it completes the turn and is its text. */
  lemma EarlierTextIsReply(threadID: string, text: string)
    requires Strings.TrimSpace(text) != ""
    ensures var own := Line(AgentItem(None, "own draft", OtherPhase));
            var es := Disturbed(text) + [own] + Conclusion();
            && Valid(Init(threadID), es)
            && Run(Init(threadID), es).pc == Back(Text(Strings.TrimSpace(text)))
  {
    var s := Init(threadID);
    var own := Line(AgentItem(None, "own draft", OtherPhase));
    StaleAnswerStays(threadID, text);
    var s7 := Run(s, Disturbed(text));
    var s8 := Extend(s, Disturbed(text), s7, own);
    assert s8.c.answer == Answer(text, "own draft", false);
    Concludes(s8);
    RunConcat(s, Disturbed(text) + [own], Conclusion());
  }
}
