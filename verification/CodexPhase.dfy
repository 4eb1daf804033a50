/** The live-status stack of a Codex turn: codexPhaseItemStarted and codexPhaseItemCompleted of internal/provider/codex_appserver.go. */
module CodexPhase {
  import opened Wrappers
  import opened InFlight

  datatype Shown = Thinking | ToolCall(tool: string)

  datatype Status = Idle | Busy(what: Shown)

  /** An item event of a type that codexItemPhase tracks, with its id (possibly empty) and what it shows. */
  datatype Event = ItemStarted(f: Frame<Shown>) | ItemCompleted(id: string) | Untracked

  type Stack = seq<Frame<Shown>>

  function Top(st: Stack): Status {
    if st == [] then Idle else Busy(st[|st| - 1].tag)
  }

  function StackAfter(st: Stack, e: Event): Stack {
    match e
    case ItemStarted(f) => if f.id == "" then st else st + [f]
    case ItemCompleted(id) => if id == "" then st else RemoveFirst(st, id)
    case Untracked => st
  }

  /** The status the event makes the connection emit, if any. */
  function Emission(st: Stack, e: Event): Option<Status> {
    match e
    case ItemStarted(f) => if f.id == "" then None else Some(Busy(f.tag))
    case ItemCompleted(_) => Some(Top(StackAfter(st, e)))
    case Untracked => None
  }

  function Run(es: seq<Event>): Stack {
    if es == [] then [] else StackAfter(Run(es[..|es| - 1]), es[|es| - 1])
  }

  /** The status on display after the events of a turn. */
  function Displayed(es: seq<Event>): Option<Status> {
    if es == [] then None
    else
      var m := Emission(Run(es[..|es| - 1]), es[|es| - 1]);
      if m.Some? then m else Displayed(es[..|es| - 1])
  }

  /** Which events announce a status: a tracked item that starts with an id, and every one that is completed. */
  lemma EmitsIff(st: Stack, e: Event)
    ensures Emission(st, e).Some? <==> (e.ItemStarted? && e.f.id != "") || e.ItemCompleted?
    ensures Emission(st, e).Some? ==> Emission(st, e).value == Top(StackAfter(st, e))
  {
  }

  function TrackOf(es: seq<Event>): Track<Shown> {
    if es == [] then Empty()
    else
      var t := TrackOf(es[..|es| - 1]);
      match es[|es| - 1]
      case ItemStarted(f) => if f.id == "" then t else Started(t, f)
      case ItemCompleted(id) => Ended(t, id)
      case Untracked => t
  }

  /** The display always shows the top of the stack, and idle exactly when nothing is in flight. */
  lemma {:induction false} DisplayIsTop(es: seq<Event>)
    ensures Displayed(es) == Some(Top(Run(es))) || (Displayed(es) == None && Run(es) == [])
    ensures Displayed(es).Some? ==> (Displayed(es) == Some(Idle) <==> Run(es) == [])
  {
    if es != [] {
      DisplayIsTop(es[..|es| - 1]);
    }
  }

  /** The stack is the in-flight items in start order, each id as often as its clamped balance. */
  lemma {:induction false} StackIsInFlight(es: seq<Event>)
    ensures Tracks(Run(es), TrackOf(es))
    ensures forall id :: Count(Run(es), id) == TrackOf(es).open[id]
  {
    if es != [] {
      var front, e := es[..|es| - 1], es[|es| - 1];
      StackIsInFlight(front);
      match e
      case ItemStarted(f) => StartTracks(Run(front), TrackOf(front), f);
      case ItemCompleted(id) => if id != "" { EndTracks(Run(front), TrackOf(front), id); }
      case Untracked =>
    }
    forall id ensures Count(Run(es), id) == TrackOf(es).open[id] {
      LatestCount(TrackOf(es).starts, TrackOf(es).open, id);
    }
  }

  /** The connection's share of the state; `streamPhase` tells whether the turn has a status callback. */
  class PhaseStack {
    var phaseStack: Stack
    var streamPhase: bool

    constructor ()
      ensures phaseStack == [] && !streamPhase
    {
      phaseStack, streamPhase := [], false;
    }

    /** At the start of a turn, and with no callback at its end. */
    method Reset(callback: bool)
      modifies this
      ensures phaseStack == Run([]) && streamPhase == callback
    {
      phaseStack, streamPhase := [], callback;
    }

    /** An item that is tracked has started; without a callback nothing happens. */
    method Started(f: Frame<Shown>) returns (emit: Option<Status>)
      modifies this
      ensures phaseStack == if streamPhase then StackAfter(old(phaseStack), ItemStarted(f)) else old(phaseStack)
      ensures emit == if streamPhase then Emission(old(phaseStack), ItemStarted(f)) else None
      ensures streamPhase == old(streamPhase)
    {
      if !streamPhase {
        return None;
      }
      if f.id == "" {
        return None;
      }
      phaseStack := phaseStack + [f];
      emit := Some(Busy(f.tag));
    }

    method Completed(id: string) returns (emit: Option<Status>)
      modifies this
      ensures phaseStack == if streamPhase then StackAfter(old(phaseStack), ItemCompleted(id)) else old(phaseStack)
      ensures emit == if streamPhase then Emission(old(phaseStack), ItemCompleted(id)) else None
      ensures streamPhase == old(streamPhase)
    {
      if !streamPhase {
        return None;
      }
      if id != "" {
        phaseStack := RemoveInPlace(phaseStack, id);
      }
      if |phaseStack| == 0 {
        emit := Some(Idle);
      } else {
        var top := phaseStack[|phaseStack| - 1];
        emit := Some(Busy(top.tag));
      }
    }
  }
}
