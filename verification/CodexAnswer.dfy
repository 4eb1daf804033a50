/** Which text of a Codex turn is posted: recordCodexAgentMessage and codexSlackFacingText of internal/provider/codex_appserver.go. */
module CodexAnswer {
  import opened Text

  const PLACEHOLDER := "(no assistant text captured)"

  /** The `phase` of an agent message: "final_answer", or anything else including none. */
  datatype Phase = FinalAnswer | OtherPhase

  datatype Message = Message(text: string, phase: Phase)

  datatype Answer = Answer(output: string, fallback: string, sawFinal: bool)

  const NOTHING := Answer("", "", false)

  function Record(a: Answer, m: Message): Answer {
    if m.phase.FinalAnswer? then a.(sawFinal := true, output := m.text)
    else if m.text == "" then a
    else a.(fallback := m.text)
  }

  function RecordAll(a: Answer, ms: seq<Message>): Answer {
    if ms == [] then a else Record(RecordAll(a, ms[..|ms| - 1]), ms[|ms| - 1])
  }

  function Facing(a: Answer): string {
    var out := TrimSpace(a.output);
    var fb := TrimSpace(a.fallback);
    var picked := if out == "" && !a.sawFinal && fb != "" then fb else out;
    if picked == "" then PLACEHOLDER else picked
  }

  // ---- the declarative reading ----

  function OrPlaceholder(s: string): string {
    if TrimSpace(s) == "" then PLACEHOLDER else TrimSpace(s)
  }

  predicate IsFinal(m: Message) {
    m.phase.FinalAnswer?
  }

  /** A bubble that can serve as the fallback. */
  predicate IsDraft(m: Message) {
    !m.phase.FinalAnswer? && m.text != ""
  }

  /** `i` is the last position of `ms` with the property. */
  predicate LastFinal(ms: seq<Message>, i: int) {
    0 <= i < |ms| && IsFinal(ms[i]) && forall k :: i < k < |ms| ==> !IsFinal(ms[k])
  }

  predicate LastDraft(ms: seq<Message>, i: int) {
    0 <= i < |ms| && IsDraft(ms[i]) && forall k :: i < k < |ms| ==> !IsDraft(ms[k])
  }

  predicate NoFinal(ms: seq<Message>) {
    forall k :: 0 <= k < |ms| ==> !IsFinal(ms[k])
  }

  predicate NoDraft(ms: seq<Message>) {
    forall k :: 0 <= k < |ms| ==> !IsDraft(ms[k])
  }

  lemma {:induction false} FinalRecorded(ms: seq<Message>)
    ensures var a := RecordAll(NOTHING, ms);
            && (a.sawFinal <==> !NoFinal(ms))
            && (forall i :: LastFinal(ms, i) ==> a.output == ms[i].text)
            && (NoFinal(ms) ==> a.output == "")
  {
    if ms != [] {
      var n := |ms| - 1;
      FinalRecorded(ms[..n]);
      assert NoFinal(ms) <==> NoFinal(ms[..n]) && !IsFinal(ms[n]);
      forall i | LastFinal(ms, i) && i < n ensures LastFinal(ms[..n], i) {
        assert forall k :: i < k < n ==> ms[..n][k] == ms[k];
      }
    }
  }

  lemma {:induction false} DraftRecorded(ms: seq<Message>)
    ensures var a := RecordAll(NOTHING, ms);
            && (forall i :: LastDraft(ms, i) ==> a.fallback == ms[i].text)
            && (NoDraft(ms) ==> a.fallback == "")
  {
    if ms != [] {
      var n := |ms| - 1;
      DraftRecorded(ms[..n]);
      assert NoDraft(ms) <==> NoDraft(ms[..n]) && !IsDraft(ms[n]);
      forall i | LastDraft(ms, i) && i < n ensures LastDraft(ms[..n], i) {
        assert forall k :: i < k < n ==> ms[..n][k] == ms[k];
      }
    }
  }

  /** The reply of a turn: the last final answer if there was one, even an empty one; else the last draft; trimmed, or the placeholder. */
  lemma SelectedAnswer(ms: seq<Message>)
    ensures var reply := Facing(RecordAll(NOTHING, ms));
            && (forall i :: LastFinal(ms, i) ==> reply == OrPlaceholder(ms[i].text))
            && (NoFinal(ms) ==> forall i :: LastDraft(ms, i) ==> reply == OrPlaceholder(ms[i].text))
            && (NoFinal(ms) && NoDraft(ms) ==> reply == PLACEHOLDER)
  {
    FinalRecorded(ms);
    DraftRecorded(ms);
    forall i | LastFinal(ms, i) ensures !NoFinal(ms) {
      assert IsFinal(ms[i]);
    }
  }

  /** One of the three cases always applies. */
  lemma {:induction false} SelectionIsTotal(ms: seq<Message>)
    ensures NoFinal(ms) || exists i :: LastFinal(ms, i)
    ensures NoDraft(ms) || exists i :: LastDraft(ms, i)
  {
    if ms != [] {
      var n := |ms| - 1;
      SelectionIsTotal(ms[..n]);
      if IsFinal(ms[n]) {
        assert LastFinal(ms, n);
      } else if !NoFinal(ms[..n]) {
        var i :| LastFinal(ms[..n], i);
        assert LastFinal(ms, i);
      }
      if IsDraft(ms[n]) {
        assert LastDraft(ms, n);
      } else if !NoDraft(ms[..n]) {
        var i :| LastDraft(ms[..n], i);
        assert LastDraft(ms, i);
      }
    }
  }
}
