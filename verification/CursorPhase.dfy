/** The live-status tracker of the Cursor CLI stream: streamPhaseTracker of internal/provider/cursor_stream.go. */
module CursorPhase {
  import opened Wrappers
  import opened InFlight

  datatype Status = Idle | Thinking | ToolCall(tool: string)

  /** A decoded line; call ids are already trimmed and an empty tool name already replaced. */
  datatype Event =
    | ToolStarted(id: string, kind: string)
    | ToolCompleted(id: string)
    | ThinkingDelta
    | ThinkingCompleted
    | OtherLine

  datatype State = State(active: seq<Frame<string>>, thinkingOpen: bool)

  function Step(s: State, e: Event): State {
    match e
    case ToolStarted(id, kind) => s.(active := s.active + [Frame(id, kind)])
    case ToolCompleted(id) => if id == "" then s else s.(active := RemoveFirst(s.active, id))
    case ThinkingDelta => s.(thinkingOpen := true)
    case ThinkingCompleted => s.(thinkingOpen := false)
    case OtherLine => s
  }

  function Emission(s: State, e: Event): Option<Status> {
    var s' := Step(s, e);
    match e
    case ToolStarted(_, kind) => Some(ToolCall(kind))
    case ToolCompleted(_) =>
      if s'.active != [] then Some(ToolCall(s'.active[|s'.active| - 1].tag))
      else if !s'.thinkingOpen then Some(Idle) else None
    case ThinkingDelta => if s.thinkingOpen then None else Some(Thinking)
    case ThinkingCompleted => if s'.active == [] then Some(Idle) else None
    case OtherLine => None
  }

  function Run(es: seq<Event>): State {
    if es == [] then State([], false) else Step(Run(es[..|es| - 1]), es[|es| - 1])
  }

  function Displayed(es: seq<Event>): Option<Status> {
    if es == [] then None
    else
      var m := Emission(Run(es[..|es| - 1]), es[|es| - 1]);
      if m.Some? then m else Displayed(es[..|es| - 1])
  }

  predicate AtRest(s: State) {
    s.active == [] && !s.thinkingOpen
  }

  /** Idle (or nothing yet) is on display exactly when no tool is active and no thought is open. */
  lemma {:induction false} IdleIffAtRest(es: seq<Event>)
    ensures Displayed(es) in {None, Some(Idle)} <==> AtRest(Run(es))
  {
    if es != [] {
      IdleIffAtRest(es[..|es| - 1]);
    }
  }

  /** A tool is only ever announced while it is the most recently started one still active, and idle only at rest. */
  lemma EmissionIsCurrent(s: State, e: Event)
    ensures Emission(s, e) == Some(Idle) ==> AtRest(Step(s, e))
    ensures forall k :: Emission(s, e) == Some(ToolCall(k)) ==>
                          Step(s, e).active != [] && Step(s, e).active[|Step(s, e).active| - 1].tag == k
  {
  }

  /**
   Which lines announce a status at all: a started tool always, a finished one unless only a thought is open, a
   thought when it opens or leaves nothing behind.
   */
  lemma EmitsIff(s: State, e: Event)
    ensures Emission(s, e).Some? <==>
            || e.ToolStarted?
            || (e.ToolCompleted? && (Step(s, e).active != [] || !s.thinkingOpen))
            || (e.ThinkingDelta? && !s.thinkingOpen)
            || (e.ThinkingCompleted? && s.active == [])
    ensures Emission(s, e) == Some(Thinking) <==> e.ThinkingDelta? && !s.thinkingOpen
  {
  }

  function TrackOf(es: seq<Event>): Track<string> {
    if es == [] then Empty()
    else
      var t := TrackOf(es[..|es| - 1]);
      match es[|es| - 1]
      case ToolStarted(id, kind) => Started(t, Frame(id, kind))
      case ToolCompleted(id) => Ended(t, id)
      case _ => t
  }

  /** The active list is the start-ordered list of in-flight calls, each id as often as its clamped balance. */
  lemma {:induction false} ActiveIsInFlight(es: seq<Event>)
    ensures Tracks(Run(es).active, TrackOf(es))
    ensures forall id :: Count(Run(es).active, id) == TrackOf(es).open[id]
  {
    if es != [] {
      var front, e := es[..|es| - 1], es[|es| - 1];
      ActiveIsInFlight(front);
      match e
      case ToolStarted(id, kind) => StartTracks(Run(front).active, TrackOf(front), Frame(id, kind));
      case ToolCompleted(id) => if id != "" { EndTracks(Run(front).active, TrackOf(front), id); }
      case _ =>
    }
    forall id ensures Count(Run(es).active, id) == TrackOf(es).open[id] {
      LatestCount(TrackOf(es).starts, TrackOf(es).open, id);
    }
  }

  // ---- what exactly is on display ----

  predicate Opens(s: State, e: Event) {
    e.ThinkingDelta? && !s.thinkingOpen
  }

  /** A tool was put on display after the last thought was opened. */
  predicate ToolSince(es: seq<Event>)
    decreases |es|
  {
    if es == [] then false
    else
      var front, e := es[..|es| - 1], es[|es| - 1];
      if Opens(Run(front), e) then false
      else ToolSince(front) || e.ToolStarted? || (e.ToolCompleted? && Run(es).active != [])
  }

  /** A thought was opened, and since then no tool has started or completed. */
  predicate QuietSince(es: seq<Event>)
    decreases |es|
  {
    if es == [] then false
    else
      var front, e := es[..|es| - 1], es[|es| - 1];
      if Opens(Run(front), e) then true
      else QuietSince(front) && !e.ToolStarted? && !e.ToolCompleted?
  }

  function TopTool(fs: seq<Frame<string>>): string
    requires fs != []
  {
    fs[|fs| - 1].tag
  }

  /** The kind of status on display, for every sequence of lines. */
  predicate Shows(d: Option<Status>, s: State, toolSince: bool, quiet: bool) {
    && (d == Some(Thinking) <==> if s.thinkingOpen then !toolSince else s.active != [] && quiet)
    && (d.Some? && d.value.ToolCall? <==> if s.thinkingOpen then toolSince else s.active != [] && !quiet)
    && (s.thinkingOpen && quiet ==> !toolSince)
    && (s.thinkingOpen && !toolSince && !quiet ==> s.active == [])
    && (d.Some? && d.value.ToolCall? && s.active != [] ==> d.value.tool == TopTool(s.active))
  }

  lemma {:induction false} DisplayExact(es: seq<Event>)
    ensures Shows(Displayed(es), Run(es), ToolSince(es), QuietSince(es))
  {
    if es != [] {
      var front, e := es[..|es| - 1], es[|es| - 1];
      DisplayExact(front);
      IdleIffAtRest(front);
      DisplayStep(Displayed(front), Run(front), e, ToolSince(front), QuietSince(front));
    }
  }

  lemma DisplayStep(d: Option<Status>, s: State, e: Event, t: bool, q: bool)
    requires Shows(d, s, t, q) && (d in {None, Some(Idle)} <==> AtRest(s))
    ensures var s', m := Step(s, e), Emission(s, e);
            Shows(if m.Some? then m else d, s',
                  !Opens(s, e) && (t || e.ToolStarted? || (e.ToolCompleted? && s'.active != [])),
                  Opens(s, e) || (q && !e.ToolStarted? && !e.ToolCompleted?))
  {
  }

  /** A tool that is over stays on display exactly if a thought is open and a tool was put on display since it opened. */
  lemma StaleToolIff(es: seq<Event>)
    ensures Run(es).active == [] && Displayed(es).Some? && Displayed(es).value.ToolCall? <==>
            Run(es).active == [] && Run(es).thinkingOpen && ToolSince(es)
  {
    DisplayExact(es);
  }

  /** A thought that is over stays on display exactly if a tool is active and none has started or completed since it opened. */
  lemma StaleThoughtIff(es: seq<Event>)
    ensures !Run(es).thinkingOpen && Displayed(es) == Some(Thinking) <==>
            !Run(es).thinkingOpen && Run(es).active != [] && QuietSince(es)
  {
    DisplayExact(es);
  }

  lemma RunOne(es: seq<Event>, e: Event)
    ensures Run(es + [e]) == Step(Run(es), e)
    ensures Displayed(es + [e]) == if Emission(Run(es), e).Some? then Emission(Run(es), e) else Displayed(es)
  {
    assert (es + [e])[..|es|] == es;
  }

  lemma StaleTool()
    ensures var es := [ThinkingDelta] + [ToolStarted("1", "read")] + [ToolCompleted("1")];
            Run(es).active == [] && Displayed(es) == Some(ToolCall("read"))
  {
    RunOne([], ThinkingDelta);
    assert [] + [ThinkingDelta] == [ThinkingDelta];
    RunOne([ThinkingDelta], ToolStarted("1", "read"));
    assert Run([ThinkingDelta] + [ToolStarted("1", "read")]) == State([Frame("1", "read")], true);
    RunOne([ThinkingDelta] + [ToolStarted("1", "read")], ToolCompleted("1"));
    assert RemoveFirst([Frame("1", "read")], "1") == [];
  }

  lemma StaleThought()
    ensures var es := [ToolStarted("1", "read")] + [ThinkingDelta] + [ThinkingCompleted];
            Run(es) == State([Frame("1", "read")], false) && Displayed(es) == Some(Thinking)
  {
    RunOne([], ToolStarted("1", "read"));
    assert [] + [ToolStarted("1", "read")] == [ToolStarted("1", "read")];
    RunOne([ToolStarted("1", "read")], ThinkingDelta);
    RunOne([ToolStarted("1", "read")] + [ThinkingDelta], ThinkingCompleted);
  }

  class StreamPhaseTracker {
    var active: seq<Frame<string>>
    var thinkingOpen: bool

    constructor ()
      ensures Value() == State([], false)
    {
      active, thinkingOpen := [], false;
    }

    ghost function Value(): State
      reads this
    {
      State(active, thinkingOpen)
    }

    method RemoveActiveTool(callID: string)
      modifies this
      ensures Value() == Step(old(Value()), ToolCompleted(callID))
    {
      if callID == "" {
        return;
      }
      active := RemoveInPlace(active, callID);
    }

    /** One line; without a callback nothing is tracked either. */
    method OnStreamLine(e: Event, callback: bool) returns (emit: Option<Status>)
      modifies this
      ensures Value() == if callback then Step(old(Value()), e) else old(Value())
      ensures emit == if callback then Emission(old(Value()), e) else None
    {
      emit := None;
      if !callback {
        return;
      }
      match e
      case ToolStarted(id, kind) =>
        active := active + [Frame(id, kind)];
        emit := Some(ToolCall(kind));
      case ToolCompleted(id) =>
        RemoveActiveTool(id);
        if |active| > 0 {
          emit := Some(ToolCall(active[|active| - 1].tag));
        } else if !thinkingOpen {
          emit := Some(Idle);
        }
      case ThinkingDelta =>
        if !thinkingOpen {
          thinkingOpen := true;
          emit := Some(Thinking);
        }
      case ThinkingCompleted =>
        thinkingOpen := false;
        if |active| == 0 {
          emit := Some(Idle);
        }
      case OtherLine =>
    }
  }
}
