/** Fetching and trimming a thread's history (internal/slackthread/transcript.go). One character stands for one byte. */
module Transcript {
  import opened Search
  import opened Text
  import opened Wrappers

  const DEFAULT_MAX_MESSAGES := 100
  const DEFAULT_MAX_CHARS := 12000
  const BATCH_LIMIT := 200

  // ---- pages ----

  datatype Page<M> = Page(msgs: seq<M>, hasMore: bool, next: string)

  /** The server's answer to request number `call` for a cursor and a limit; it may answer differently every time. */
  type Server<!M, !E> = (nat, string, nat) -> Result<Page<M>, E>

  function MaxMessages(maxMsgs: int): (n: nat)
    ensures n > 0
  {
    if maxMsgs <= 0 then DEFAULT_MAX_MESSAGES else maxMsgs
  }

  function Batch(missing: nat): nat {
    if missing > BATCH_LIMIT then BATCH_LIMIT else missing
  }

  /** Every request asks for no more than is missing, and for 1 to 200 messages. */
  lemma BatchBounds(missing: nat)
    requires missing > 0
    ensures 1 <= Batch(missing) <= missing && Batch(missing) <= 200 && (missing <= 200 ==> Batch(missing) == missing)
  {
  }

  /** The pages that are fetched while `missing` messages are wanted: up to the first error, last page or empty page. */
  function Pages<M, E>(server: Server<M, E>, call: nat, cursor: string, missing: int): Result<seq<seq<M>>, E>
    decreases if missing > 0 then missing else 0
  {
    if missing <= 0 then Ok([])
    else
      match server(call, cursor, Batch(missing))
      case Err(e) => Err(e)
      case Ok(page) =>
        if !page.hasMore || page.next == "" || page.msgs == [] then Ok([page.msgs])
        else
          match Pages(server, call + 1, page.next, missing - |page.msgs|)
          case Err(e) => Err(e)
          case Ok(more) => Ok([page.msgs] + more)
  }

  function Flat<M>(pages: seq<seq<M>>): seq<M> {
    if pages == [] then [] else pages[0] + Flat(pages[1..])
  }

  function Take<M>(ms: seq<M>, n: nat): seq<M> {
    if |ms| > n then ms[..n] else ms
  }

  /** The messages fetched from here on. */
  function Fetched<M, E>(server: Server<M, E>, call: nat, cursor: string, missing: int): Result<seq<M>, E> {
    match Pages(server, call, cursor, missing)
    case Err(e) => Err(e)
    case Ok(pages) => Ok(Flat(pages))
  }

  function Prepended<M, E>(ms: seq<M>, rest: Result<seq<M>, E>): Result<seq<M>, E> {
    match rest
    case Err(e) => Err(e)
    case Ok(more) => Ok(ms + more)
  }

  lemma OnePage<M, E>(server: Server<M, E>, call: nat, cursor: string, missing: int, page: Page<M>)
    requires missing > 0 && server(call, cursor, Batch(missing)) == Ok(page)
    ensures Fetched(server, call, cursor, missing) ==
            if !page.hasMore || page.next == "" || page.msgs == [] then Ok(page.msgs)
            else Prepended(page.msgs, Fetched(server, call + 1, page.next, missing - |page.msgs|))
  {
    assert Flat([page.msgs]) == page.msgs + [] == page.msgs;
    if page.hasMore && page.next != "" && page.msgs != [] {
      var rest := Pages(server, call + 1, page.next, missing - |page.msgs|);
      if rest.Ok? {
        assert ([page.msgs] + rest.value)[1..] == rest.value;
      }
    }
  }

  lemma PrependedTwice<M, E>(a: seq<M>, b: seq<M>, rest: Result<seq<M>, E>)
    ensures Prepended(a, Prepended(b, rest)) == Prepended(a + b, rest)
    ensures Prepended<M, E>(a, Ok(b)) == Ok(a + b)
  {
    if rest.Ok? {
      assert a + (b + rest.value) == a + b + rest.value;
    }
  }

  method CollectReplies<M, E>(server: Server<M, E>, maxMsgs: int) returns (r: Result<seq<M>, E>)
    ensures var n := MaxMessages(maxMsgs);
            r == match Fetched(server, 0, "", n) case Err(e) => Err(e) case Ok(ms) => Ok(Take(ms, n))
  {
    var max := if maxMsgs <= 0 then DEFAULT_MAX_MESSAGES else maxMsgs;
    var collected: seq<M>, cursor, calls := [], "", 0;
    ghost var all := Fetched(server, 0, "", max);
    assert all == Prepended(collected, all) by {
      if all.Ok? {
        assert collected + all.value == all.value;
      }
    }
    while |collected| < max
      invariant all == Prepended(collected, Fetched(server, calls, cursor, max - |collected|))
      decreases max - |collected|
    {
      var batch := max - |collected|;
      if batch > BATCH_LIMIT {
        batch := BATCH_LIMIT;
      }
      var reply := server(calls, cursor, batch);
      if reply.Err? {
        return Err(reply.error);
      }
      var page := reply.value;
      OnePage(server, calls, cursor, max - |collected|, page);
      PrependedTwice(collected, page.msgs, Fetched(server, calls + 1, page.next, max - |collected| - |page.msgs|));
      calls := calls + 1;
      collected := collected + page.msgs;
      if !page.hasMore || page.next == "" {
        return Ok(Take(collected, max));
      }
      cursor := page.next;
      if |page.msgs| == 0 {
        return Ok(Take(collected, max));
      }
    }
    assert collected + [] == collected;
    r := Ok(Take(collected, max));
  }

  /**
   A server that pages through `thread`: the cursor tells where to go on, each page is the next piece
   of the thread, and not empty before the end.
   */
  ghost predicate Serves<M(!new), E(!new)>(server: Server<M, E>, thread: seq<M>, offset: string -> nat) {
    && offset("") == 0
    && forall call, cursor, limit {:trigger server(call, cursor, limit)} :: limit > 0 && offset(cursor) <= |thread| ==>
        var reply := server(call, cursor, limit);
        && reply.Ok?
        && PieceOf(reply.value, thread, offset, offset(cursor))
  }

  predicate PieceOf<M(==)>(page: Page<M>, thread: seq<M>, offset: string -> nat, at: nat) {
    && at + |page.msgs| <= |thread| && page.msgs == thread[at..at + |page.msgs|]
    && (at < |thread| ==> page.msgs != [])
    && (page.hasMore <==> at + |page.msgs| < |thread|)
    && (page.hasMore ==> page.next != "" && offset(page.next) == at + |page.msgs|)
  }

  lemma {:induction false} FetchesThread<M(!new), E(!new)>(server: Server<M, E>, thread: seq<M>, offset: string -> nat,
                                                       call: nat, cursor: string, missing: int)
    requires Serves(server, thread, offset) && offset(cursor) <= |thread|
    ensures var r := Fetched(server, call, cursor, missing);
            && r.Ok? && r.value <= thread[offset(cursor)..]
            && (|r.value| >= missing || r.value == thread[offset(cursor)..])
    decreases if missing > 0 then missing else 0
  {
    if missing > 0 {
      var at := offset(cursor);
      var page := server(call, cursor, Batch(missing)).value;
      OnePage(server, call, cursor, missing, page);
      assert page.msgs == thread[at..][..|page.msgs|];
      if page.hasMore {
        FetchesThread(server, thread, offset, call + 1, page.next, missing - |page.msgs|);
        assert thread[at..] == page.msgs + thread[at + |page.msgs|..];
      }
    }
  }

  /** However the server cuts the thread into pages, the result is its first messages, as many as wanted. */
  lemma CollectsTheThread<M(!new), E(!new)>(server: Server<M, E>, thread: seq<M>, offset: string -> nat, n: nat)
    requires Serves(server, thread, offset)
    ensures var r := Fetched(server, 0, "", n);
            r.Ok? && Take(r.value, n) == if |thread| > n then thread[..n] else thread
  {
    FetchesThread(server, thread, offset, 0, "", n);
    assert thread[0..] == thread;
  }

  // ---- the character budget ----

  datatype Message = Message(timestamp: string, line: string)

  function MaxChars(maxChars: int): (n: nat)
    ensures n > 0
  {
    if maxChars <= 0 then DEFAULT_MAX_CHARS else maxChars
  }

  /** The lines to show: those of all messages but the trigger that have any text. */
  function Candidates(ms: seq<Message>, triggerTs: string): seq<string> {
    if ms == [] then []
    else
      var rest := Candidates(ms[1..], triggerTs);
      if TrimSpace(ms[0].timestamp) == TrimSpace(triggerTs) || ms[0].line == "" then rest else [ms[0].line] + rest
  }

  /** The message is shown: it is not the trigger, and it has any text. */
  predicate IsShown(m: Message, triggerTs: string) {
    TrimSpace(m.timestamp) != TrimSpace(triggerTs) && m.line != ""
  }

  function ShownCount(ms: seq<Message>, triggerTs: string): nat {
    if ms == [] then 0 else ShownCount(ms[..|ms| - 1], triggerTs) + if IsShown(ms[|ms| - 1], triggerTs) then 1 else 0
  }

  /** The lines are those of the messages to show, all of them, each at the place its predecessors leave it. */
  lemma {:induction false} CandidatesAre(ms: seq<Message>, triggerTs: string)
    ensures |Candidates(ms, triggerTs)| == ShownCount(ms, triggerTs)
    ensures forall i :: 0 <= i < |ms| && IsShown(ms[i], triggerTs) ==>
              var k := ShownCount(ms[..i], triggerTs);
              k < |Candidates(ms, triggerTs)| && Candidates(ms, triggerTs)[k] == ms[i].line
  {
    if ms != [] {
      var n := |ms| - 1;
      var front, m := ms[..n], ms[n];
      CandidatesAre(front, triggerTs);
      assert ms == front + [m] && [m][1..] == [];
      CandidatesPush(front, m, triggerTs);
      assert forall i :: 0 <= i < n ==> front[..i] == ms[..i] && front[i] == ms[i];
    }
  }

  /** What lines cost, a newline each. */
  function Cost(ls: seq<string>): nat {
    if ls == [] then 0 else |ls[0]| + 1 + Cost(ls[1..])
  }

  function JoinLines(ls: seq<string>): string {
    if ls == [] then "" else Join(ls, "\n")
  }

  lemma {:induction false} CandidatesPush(ms: seq<Message>, m: Message, triggerTs: string)
    ensures Candidates(ms + [m], triggerTs) == Candidates(ms, triggerTs) + Candidates([m], triggerTs)
  {
    if ms == [] {
      assert ms + [m] == [m];
    } else {
      assert (ms + [m])[1..] == ms[1..] + [m];
      CandidatesPush(ms[1..], m, triggerTs);
    }
  }

  lemma {:induction false} CandidatesConcat(ms: seq<Message>, ns: seq<Message>, triggerTs: string)
    ensures Candidates(ms + ns, triggerTs) == Candidates(ms, triggerTs) + Candidates(ns, triggerTs)
  {
    if ms == [] {
      assert ms + ns == ns;
    } else {
      assert (ms + ns)[1..] == ms[1..] + ns;
      CandidatesConcat(ms[1..], ns, triggerTs);
    }
  }

  lemma {:induction false} CostConcat(a: seq<string>, b: seq<string>)
    ensures Cost(a + b) == Cost(a) + Cost(b)
  {
    if a == [] {
      assert a + b == b;
    } else {
      assert (a + b)[1..] == a[1..] + b;
      CostConcat(a[1..], b);
    }
  }

  /** The longest prefix that the budget allows. */
  ghost predicate Fits(ls: seq<string>, n: nat, budget: int) {
    n <= |ls| && Cost(ls[..n]) <= budget && forall k :: n < k <= |ls| ==> Cost(ls[..k]) > budget
  }

  /** The first `n` lines, and the marker if that is not all. */
  function Shown(ls: seq<string>, n: nat, marker: string): seq<string>
    requires n <= |ls|
  {
    ls[..n] + if n < |ls| then [marker] else []
  }

  lemma CostGrows(ls: seq<string>, n: nat, k: nat)
    requires n <= k <= |ls|
    ensures Cost(ls[..n]) <= Cost(ls[..k])
  {
    assert ls[..k] == ls[..n] + ls[n..k];
    CostConcat(ls[..n], ls[n..k]);
  }

  lemma StopsHere(ls: seq<string>, n: nat, budget: int)
    requires n < |ls| && Cost(ls[..n]) <= budget && Cost(ls[..n]) + |ls[n]| + 1 > budget
    ensures Fits(ls, n, budget)
  {
    assert ls[..n + 1] == ls[..n] + [ls[n]];
    CostConcat(ls[..n], [ls[n]]);
    assert [ls[n]][1..] == [];
    forall k | n < k <= |ls| ensures Cost(ls[..k]) > budget {
      CostGrows(ls, n + 1, k);
    }
  }

  method TranscriptExcluding(collected: seq<Message>, triggerTs: string, maxChars: int, marker: string)
    returns (text: string)
    ensures var ls := Candidates(collected, triggerTs);
            exists n: nat :: Fits(ls, n, MaxChars(maxChars))
                        && text == JoinLines(Shown(ls, n, marker))
                        && text == if ls == [] then "" else Join(if n < |ls| then ls[..n] + [marker] else ls, "\n")
  {
    var charBudget := if maxChars <= 0 then DEFAULT_MAX_CHARS else maxChars;
    ghost var budget, ls := charBudget, Candidates(collected, triggerTs);
    var lines: seq<string> := [];
    assert collected[..0] == [];
    for i := 0 to |collected|
      invariant lines == Candidates(collected[..i], triggerTs)
      invariant charBudget == budget - Cost(lines) >= 0
    {
      var m := collected[i];
      assert collected[..i + 1] == collected[..i] + [m];
      CandidatesPush(collected[..i], m, triggerTs);
      assert [m][1..] == [];
      if TrimSpace(m.timestamp) == TrimSpace(triggerTs) {
        continue;
      }
      if m.line == "" {
        continue;
      }
      assert Candidates([m], triggerTs) == [m.line];
      if |m.line| + 1 > charBudget {
        Remaining(collected, i, triggerTs);
        StopsHere(ls, |lines|, budget);
        assert Shown(ls, |lines|, marker) == lines + [marker];
        return JoinLines(lines + [marker]);
      }
      CostConcat(lines, [m.line]);
      assert [m.line][1..] == [];
      lines := lines + [m.line];
      charBudget := charBudget - (|m.line| + 1);
    }
    assert collected[..|collected|] == collected;
    assert ls[..|ls|] == ls && Shown(ls, |ls|, marker) == ls + [] == ls;
    assert Fits(ls, |ls|, budget);
    text := JoinLines(lines);
  }

  /** What has been kept so far is a prefix of all candidates, and the present line comes next. */
  lemma Remaining(ms: seq<Message>, i: nat, triggerTs: string)
    requires i < |ms| && TrimSpace(ms[i].timestamp) != TrimSpace(triggerTs) && ms[i].line != ""
    ensures var ls, kept := Candidates(ms, triggerTs), Candidates(ms[..i], triggerTs);
            |kept| < |ls| && ls[..|kept|] == kept && ls[|kept|] == ms[i].line
  {
    assert ms == ms[..i] + ms[i..];
    CandidatesConcat(ms[..i], ms[i..], triggerTs);
  }

  lemma {:induction false} JoinedLength(ls: seq<string>)
    requires ls != []
    ensures |Join(ls, "\n")| == Cost(ls) - 1
    decreases |ls|
  {
    if |ls| > 1 {
      JoinedLength(ls[1..]);
    }
  }

  /** The length of the output: the marker comes on a line of its own after what the budget allowed. */
  lemma OutputLength(ls: seq<string>, n: nat, budget: nat, marker: string)
    requires Fits(ls, n, budget)
    ensures n < |ls| <==> Cost(ls) > budget
    ensures |JoinLines(Shown(ls, n, marker))| ==
            if n < |ls| then Cost(ls[..n]) + |marker| else if ls == [] then 0 else Cost(ls) - 1
  {
    var kept := ls[..n];
    assert kept + [] == kept && ls[..|ls|] == ls;
    if n < |ls| {
      JoinedLength(kept + [marker]);
      CostConcat(kept, [marker]);
      assert [marker][1..] == [];
    } else if ls != [] {
      JoinedLength(ls);
    }
  }

  /**
   The output keeps to the budget exactly if all lines fit, or the marker fits into what the kept lines leave;
   otherwise it is longer by less than the marker and its newline.
   */
  lemma OutputBound(ls: seq<string>, n: nat, budget: nat, marker: string)
    requires Fits(ls, n, budget) && budget > 0
    ensures var text := JoinLines(Shown(ls, n, marker));
            && (|text| <= budget <==> Cost(ls) <= budget || Cost(ls[..n]) + |marker| <= budget)
            && |text| <= (if n < |ls| then budget + |marker| else budget - 1)
            && (n < |ls| <==> Cost(ls) > budget)
  {
    OutputLength(ls, n, budget, marker);
  }

  /** A budget that the first line uses up exactly: the output exceeds it by the whole marker. */
  lemma ExceedsBudget(line: string, more: string, marker: string)
    requires marker != ""
    ensures var ls, budget := [line, more], |line| + 1;
            && Fits(ls, 1, budget)
            && |JoinLines(Shown(ls, 1, marker))| == budget + |marker|
  {
    var ls, budget := [line, more], |line| + 1;
    assert ls[..1] == [line] && [line][1..] == [];
    StopsHere(ls, 1, budget);
    OutputLength(ls, 1, budget, marker);
  }

  /** The kept prefix is the only one that fits and cannot be made longer. */
  lemma OnlyOneFits(ls: seq<string>, n: nat, m: nat, budget: int)
    requires Fits(ls, n, budget) && Fits(ls, m, budget)
    ensures n == m
  {
  }
}
