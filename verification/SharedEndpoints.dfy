/**
 * Two destinations with one workspace and one endpoint: nothing forbids them, and deleting a
 * destination does not stop its worker.
 */
module SharedEndpoints {
  import opened Basics
  import opened ExportTable
  import opened DestinationStore
  import opened Deployments

  function Exporter(d: DestId, token: Token, now: int, phase: Phase): Worker {
    Worker(d, 0, token, now, now + RUN_TIMEOUT, phase)
  }

  predicate Repeated(plan: Plan, d: DestId, e: DestId) {
    d != e && plan(d) == plan(e)
  }

  /** A source row, a destination, and a job that has started on it. */
  lemma FirstStarts(grace: nat, plan: Plan, d: DestId, empty: State) returns (states: seq<State>, steps: seq<Step>)
    requires Initial(empty)
    ensures Deployed(grace, plan, OneOwner(plan(d).workspace), states, steps)
    ensures var s := states[|steps|];
            && s.now == empty.now && s.issued == map[1 := 1] && s.cursors == map[] && s.sinks == map[]
            && s.configs == map[d := plan(d)] && s.dests.Keys == {d} && HoldsRow(plan, d, s, OLD)
            && s.workers == map[1 := Exporter(d, 1, s.now, LoopHead(Interactions, 0))]
  {
    var owner := OneOwner(plan(d).workspace);
    states, steps := Created(grace, plan, d, empty);
    states, steps := Then(grace, plan, owner, states, steps, Claim(d, 1, 1, Scheduled));
    states, steps := Then(grace, plan, owner, states, steps, StartDrain(1));
  }

  /** It fetches the row as it is now. */
  lemma FirstFetches(grace: nat, plan: Plan, d: DestId, empty: State) returns (states: seq<State>, steps: seq<Step>)
    requires Initial(empty)
    ensures Deployed(grace, plan, OneOwner(plan(d).workspace), states, steps)
    ensures var s := states[|steps|];
            && s.now == empty.now && s.issued == map[1 := 1] && s.cursors == map[] && s.sinks == map[]
            && s.configs == map[d := plan(d)] && s.dests.Keys == {d} && HoldsRow(plan, d, s, OLD)
            && s.workers == map[1 := Exporter(d, 1, s.now, Fetched(Interactions, 0, NIL_KEY, [OLD]))]
  {
    var owner := OneOwner(plan(d).workspace);
    states, steps := FirstStarts(grace, plan, d, empty);
    states, steps := Then(grace, plan, owner, states, steps, ReadCursor(1));
    FetchesOne(states[|steps|], 1, OLD, NIL_KEY);
    states, steps := Then(grace, plan, owner, states, steps, FetchBatch(1));
  }

  /** Its destination is replaced by another of the same plan, and the row is written again. */
  lemma Replaced(grace: nat, plan: Plan, d: DestId, e: DestId, empty: State)
      returns (states: seq<State>, steps: seq<Step>)
    requires Initial(empty) && Repeated(plan, d, e)
    ensures Deployed(grace, plan, OneOwner(plan(d).workspace), states, steps)
    ensures var s := states[|steps|];
            && s.now == empty.now && s.issued == map[1 := 1] && s.cursors == map[] && s.sinks == map[]
            && s.configs == map[d := plan(d), e := plan(d)] && HoldsRow(plan, d, s, NEW)
            && s.dests == map[e := Destination(true, 0, s.now, None, None)]
            && s.workers == map[1 := Exporter(d, 1, s.now, Fetched(Interactions, 0, NIL_KEY, [OLD]))]
  {
    var owner := OneOwner(plan(d).workspace);
    states, steps := FirstFetches(grace, plan, d, empty);
    states, steps := Then(grace, plan, owner, states, steps, Delete(d));
    states, steps := Then(grace, plan, owner, states, steps, Create(e, plan(e), 0));
    OneRowIsReplaced(OLD, NEW);
    states, steps := Then(grace, plan, owner, states, steps, Write(plan(d).workspace, Interactions, NEW));
  }

  /** The new destination's job starts while the old batch is still in hand. */
  lemma SecondStarts(grace: nat, plan: Plan, d: DestId, e: DestId, empty: State)
      returns (states: seq<State>, steps: seq<Step>)
    requires Initial(empty) && Repeated(plan, d, e)
    ensures Deployed(grace, plan, OneOwner(plan(d).workspace), states, steps)
    ensures var s := states[|steps|];
            && s.now == empty.now && s.cursors == map[] && s.sinks == map[]
            && s.configs == map[d := plan(d), e := plan(d)] && s.dests.Keys == {e} && HoldsRow(plan, d, s, NEW)
            && s.workers == map[1 := Exporter(d, 1, s.now, Fetched(Interactions, 0, NIL_KEY, [OLD])),
                                2 := Exporter(e, 2, s.now, LoopHead(Interactions, 0))]
  {
    var owner := OneOwner(plan(d).workspace);
    states, steps := Replaced(grace, plan, d, e, empty);
    states, steps := Then(grace, plan, owner, states, steps, Claim(e, 2, 2, Scheduled));
    states, steps := Then(grace, plan, owner, states, steps, StartDrain(2));
  }

  /** It fetches the new row. */
  lemma SecondFetches(grace: nat, plan: Plan, d: DestId, e: DestId, empty: State)
      returns (states: seq<State>, steps: seq<Step>)
    requires Initial(empty) && Repeated(plan, d, e)
    ensures Deployed(grace, plan, OneOwner(plan(d).workspace), states, steps)
    ensures var s := states[|steps|];
            && s.now == empty.now && s.cursors == map[] && s.sinks == map[]
            && s.configs == map[d := plan(d), e := plan(d)] && s.dests.Keys == {e} && HoldsRow(plan, d, s, NEW)
            && s.workers == map[1 := Exporter(d, 1, s.now, Fetched(Interactions, 0, NIL_KEY, [OLD])),
                                2 := Exporter(e, 2, s.now, Fetched(Interactions, 0, NIL_KEY, [NEW]))]
  {
    var owner := OneOwner(plan(d).workspace);
    states, steps := SecondStarts(grace, plan, d, e, empty);
    states, steps := Then(grace, plan, owner, states, steps, ReadCursor(2));
    FetchesOne(states[|steps|], 2, NEW, NIL_KEY);
    states, steps := Then(grace, plan, owner, states, steps, FetchBatch(2));
  }

  /** It delivers and moves its cursor past the row. */
  lemma SecondAdvances(grace: nat, plan: Plan, d: DestId, e: DestId, empty: State)
      returns (states: seq<State>, steps: seq<Step>)
    requires Initial(empty) && Repeated(plan, d, e)
    ensures Deployed(grace, plan, OneOwner(plan(d).workspace), states, steps)
    ensures var s := states[|steps|];
            && s.now == empty.now && s.cursors == map[(e, Interactions) := NEW.key]
            && s.configs == map[d := plan(d), e := plan(d)] && s.dests.Keys == {e} && HoldsRow(plan, d, s, NEW)
            && 1 in s.workers && s.workers[1] == Exporter(d, 1, s.now, Fetched(Interactions, 0, NIL_KEY, [OLD]))
  {
    var owner := OneOwner(plan(d).workspace);
    states, steps := SecondFetches(grace, plan, d, e, empty);
    states, steps := Then(grace, plan, owner, states, steps, Deliver(2));
    states, steps := Then(grace, plan, owner, states, steps, Advance(2));
  }

  /**
   * However soon drains start, two destinations with one workspace and endpoint can break the
   * strong promise: the deleted destination's worker delivers last, and the sink holds the old
   * row below the cursor of the destination that has exported the new one.
   */
  lemma SharedEndpointGoesStale(grace: nat, plan: Plan, d: DestId, e: DestId, empty: State)
      returns (states: seq<State>, steps: seq<Step>)
    requires Initial(empty) && d != e && plan(d) == plan(e)
    ensures Deployed(grace, plan, OneOwner(plan(d).workspace), states, steps)
    ensures Stale(states[|steps|], e)
  {
    states, steps := SecondAdvances(grace, plan, d, e, empty);
    OneRowIsSent(SinkOf(states[|steps|], plan(d).endpoint), Interactions, OLD);
    states, steps := Then(grace, plan, OneOwner(plan(d).workspace), states, steps, Deliver(1));
  }
}
