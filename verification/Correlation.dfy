/**
 What a request/response table owes its callers, independent of the transport: a request id is issued
 once and its verdict, once given, never changes. Both JSON-RPC layers refine this table.
 Ids are matched as section 5 of the JSON-RPC 2.0 Specification asks: a response carries the id of its request.
 */
module Correlation {
  datatype Response = Response(id: int, payload: string)

  datatype Verdict =
    | Pending
    | Answered(r: Response)   // the reader matched this response to the id
    | Shut                    // the table was closed under the waiter
    | Withdrawn               // the caller took its own entry out

  type Table = map<int, Verdict>

  predicate Next(t: Table, t': Table) {
    && t.Keys <= t'.Keys
    && (forall id <- t :: !t[id].Pending? ==> t'[id] == t[id])
    && (forall id <- t' :: id !in t ==> t'[id].Pending?)
  }

  predicate WellFormed(t: Table) {
    forall id <- t :: id > 0 && (t[id].Answered? ==> t[id].r.id == id)
  }

  predicate Chain(ts: seq<Table>) {
    forall i :: 0 <= i < |ts| - 1 ==> Next(ts[i], ts[i + 1])
  }

  lemma ChainCons(t: Table, ts: seq<Table>)
    requires Chain(ts) && ts != [] && Next(t, ts[0])
    ensures Chain([t] + ts)
  {
    forall i | 0 <= i < |ts| ensures Next(([t] + ts)[i], ([t] + ts)[i + 1]) {
      if i > 0 {
        assert Next(ts[i - 1], ts[i]);
      }
    }
  }

  // ---- runs of a machine, and the tables it shows on the way ----

  ghost predicate ValidRun<S, E>(s: S, es: seq<E>, step: (S, E) --> S)
    decreases |es|
  {
    es == [] || (step.requires(s, es[0]) && ValidRun(step(s, es[0]), es[1..], step))
  }

  function RunFrom<S, E>(s: S, es: seq<E>, step: (S, E) --> S): S
    requires ValidRun(s, es, step)
    decreases |es|
  {
    if es == [] then s else RunFrom(step(s, es[0]), es[1..], step)
  }

  lemma PrependRun<S, E>(s: S, e: E, es: seq<E>, step: (S, E) --> S)
    requires step.requires(s, e) && ValidRun(step(s, e), es, step)
    ensures ValidRun(s, [e] + es, step) && RunFrom(s, [e] + es, step) == RunFrom(step(s, e), es, step)
  {
    assert ([e] + es)[1..] == es;
  }

  function Shown<S, E>(s: S, es: seq<E>, step: (S, E) --> S, abs: S -> Table): seq<Table>
    requires ValidRun(s, es, step)
    decreases |es|
  {
    if es == [] then [abs(s)] else [abs(s)] + Shown(step(s, es[0]), es[1..], step, abs)
  }

  /** The machine keeps its invariant and, as long as it holds, each step is one of the table. */
  ghost predicate Refines<S(!new), E(!new)>(step: (S, E) --> S, inv: S -> bool, abs: S -> Table) {
    forall s, e :: inv(s) && step.requires(s, e) ==> inv(step(s, e)) && Next(abs(s), abs(step(s, e)))
  }

  lemma {:induction false} RunKeeps<S(!new), E(!new)>(s: S, es: seq<E>, step: (S, E) --> S, inv: S -> bool, abs: S -> Table)
    requires Refines(step, inv, abs) && inv(s) && ValidRun(s, es, step)
    ensures inv(RunFrom(s, es, step))
    ensures Chain(Shown(s, es, step, abs)) && Shown(s, es, step, abs)[0] == abs(s)
    decreases |es|
  {
    if es != [] {
      var s' := step(s, es[0]);
      RunKeeps(s', es[1..], step, inv, abs);
      ChainCons(abs(s), Shown(s', es[1..], step, abs));
    }
  }

  /** At most one verdict per request, over any history. */
  lemma {:induction false} VerdictIsFinal(ts: seq<Table>, i: nat, j: nat, id: int)
    requires Chain(ts) && i <= j < |ts| && id in ts[i] && !ts[i][id].Pending?
    ensures id in ts[j] && ts[j][id] == ts[i][id]
    decreases j - i
  {
    if i < j {
      assert Next(ts[i], ts[i + 1]);
      VerdictIsFinal(ts, i + 1, j, id);
    }
  }

  // ---- the pending map both layers keep: request id to the channel of the waiter ----

  predicate Listed(pending: map<int, nat>, c: nat) {
    exists id <- pending :: pending[id] == c
  }

  /** Working off the entry `id` adds its channel to those worked off. */
  lemma ListedMore(m: map<int, nat>, keys: set<int>, id: int)
    requires id in keys && keys <= m.Keys
    ensures forall c :: Listed(m - (keys - {id}), c) <==> Listed(m - keys, c) || c == m[id]
  {
    forall c | c == m[id] || Listed(m - keys, c) ensures Listed(m - (keys - {id}), c) {
      if c == m[id] {
        assert id in m - (keys - {id});
      } else {
        var kd :| kd in m - keys && (m - keys)[kd] == c;
        assert kd in m - (keys - {id});
      }
    }
    forall c | Listed(m - (keys - {id}), c) && c != m[id] ensures Listed(m - keys, c) {
      var kd :| kd in m - (keys - {id}) && (m - (keys - {id}))[kd] == c;
      assert kd in m - keys;
    }
  }
}
