/** One destination whose drain starts too late, and with that the exact condition of the strong promise. */
module LateDrains {
  import opened Basics
  import opened ExportTable
  import opened DestinationStore
  import opened TimelyExports
  import opened ExactSinks
  import opened Deployments
  import SharedEndpoints

  lemma Claimed(grace: nat, plan: Plan, d: DestId, empty: State) returns (states: seq<State>, steps: seq<Step>)
    requires Initial(empty)
    ensures Deployed(grace, plan, OneOwner(plan(d).workspace), states, steps)
    ensures var s := states[|steps|];
            && s.now == empty.now && s.issued == map[1 := 1] && s.cursors == map[] && s.sinks == map[]
            && s.configs == map[d := plan(d)] && HoldsRow(plan, d, s, OLD)
            && s.dests == map[d := Destination(true, 0, s.now, Some(s.now), Some(1))]
            && s.workers == map[1 := Worker(d, 0, 1, s.now, s.now + STALE_CLAIM_AGE, Phase.Claimed)]
  {
    states, steps := Created(grace, plan, d, empty);
    states, steps := Then(grace, plan, OneOwner(plan(d).workspace), states, steps, Claim(d, 1, 1, Scheduled));
  }

  /** The drain starts one second later than the limits leave room for. */
  lemma Started(grace: nat, plan: Plan, d: DestId, empty: State) returns (states: seq<State>, steps: seq<Step>)
    requires Initial(empty) && START_GRACE < grace
    ensures Deployed(grace, plan, OneOwner(plan(d).workspace), states, steps)
    ensures var s := states[|steps|];
            && s.now == empty.now + START_GRACE + 1 && s.issued == map[1 := 1] && s.cursors == map[]
            && s.sinks == map[] && s.configs == map[d := plan(d)] && HoldsRow(plan, d, s, OLD)
            && s.dests == map[d := Destination(true, 0, empty.now, Some(empty.now), Some(1))]
            && s.workers == map[1 := Worker(d, 0, 1, empty.now, s.now + RUN_TIMEOUT, LoopHead(Interactions, 0))]
  {
    var owner := OneOwner(plan(d).workspace);
    states, steps := Claimed(grace, plan, d, empty);
    states, steps := Then(grace, plan, owner, states, steps, Tick(START_GRACE + 1));
    states, steps := Then(grace, plan, owner, states, steps, StartDrain(1));
  }

  /** It fetches the row as it is now, and then takes all the time it has. */
  lemma Fetches(grace: nat, plan: Plan, d: DestId, empty: State) returns (states: seq<State>, steps: seq<Step>)
    requires Initial(empty) && START_GRACE < grace
    ensures Deployed(grace, plan, OneOwner(plan(d).workspace), states, steps)
    ensures var s := states[|steps|];
            && s.now == empty.now + STALE_CLAIM_AGE + 1 && s.issued == map[1 := 1] && s.cursors == map[]
            && s.sinks == map[] && s.configs == map[d := plan(d)] && HoldsRow(plan, d, s, OLD)
            && s.dests == map[d := Destination(true, 0, empty.now, Some(empty.now), Some(1))]
            && s.workers == map[1 := Worker(d, 0, 1, empty.now, s.now, Fetched(Interactions, 0, NIL_KEY, [OLD]))]
  {
    var owner := OneOwner(plan(d).workspace);
    states, steps := Started(grace, plan, d, empty);
    states, steps := Then(grace, plan, owner, states, steps, ReadCursor(1));
    FetchesOne(states[|steps|], 1, OLD, NIL_KEY);
    states, steps := Then(grace, plan, owner, states, steps, FetchBatch(1));
    states, steps := Then(grace, plan, owner, states, steps, Tick(RUN_TIMEOUT));
  }

  /** Its claim is swept, and the row is written again. */
  lemma Swept(grace: nat, plan: Plan, d: DestId, empty: State) returns (states: seq<State>, steps: seq<Step>)
    requires Initial(empty) && START_GRACE < grace
    ensures Deployed(grace, plan, OneOwner(plan(d).workspace), states, steps)
    ensures var s := states[|steps|];
            && s.now == empty.now + STALE_CLAIM_AGE + 1 && s.issued == map[1 := 1] && s.cursors == map[]
            && s.sinks == map[] && s.configs == map[d := plan(d)] && HoldsRow(plan, d, s, NEW)
            && s.dests == map[d := Destination(true, 0, empty.now, None, None)]
            && s.workers == map[1 := Worker(d, 0, 1, empty.now, s.now, Fetched(Interactions, 0, NIL_KEY, [OLD]))]
  {
    var owner := OneOwner(plan(d).workspace);
    states, steps := Fetches(grace, plan, d, empty);
    states, steps := Then(grace, plan, owner, states, steps, ReleaseStale(empty.now + 1));
    OneRowIsReplaced(OLD, NEW);
    states, steps := Then(grace, plan, owner, states, steps, Write(plan(d).workspace, Interactions, NEW));
  }

  /** The destination is claimed again, and the next job starts at once. */
  lemma Reclaimed(grace: nat, plan: Plan, d: DestId, empty: State) returns (states: seq<State>, steps: seq<Step>)
    requires Initial(empty) && START_GRACE < grace
    ensures Deployed(grace, plan, OneOwner(plan(d).workspace), states, steps)
    ensures var s := states[|steps|];
            && s.cursors == map[] && s.sinks == map[]
            && s.configs == map[d := plan(d)] && HoldsRow(plan, d, s, NEW)
            && s.dests.Keys == {d}
            && s.workers == map[1 := Worker(d, 0, 1, empty.now, s.now, Fetched(Interactions, 0, NIL_KEY, [OLD])),
                                2 := Worker(d, 0, 2, s.now, s.now + RUN_TIMEOUT, LoopHead(Interactions, 0))]
  {
    var owner := OneOwner(plan(d).workspace);
    states, steps := Swept(grace, plan, d, empty);
    states, steps := Then(grace, plan, owner, states, steps, Claim(d, 2, 2, Scheduled));
    states, steps := Then(grace, plan, owner, states, steps, StartDrain(2));
  }

  lemma FetchesAgain(grace: nat, plan: Plan, d: DestId, empty: State) returns (states: seq<State>, steps: seq<Step>)
    requires Initial(empty) && START_GRACE < grace
    ensures Deployed(grace, plan, OneOwner(plan(d).workspace), states, steps)
    ensures var s := states[|steps|];
            && s.cursors == map[] && s.sinks == map[]
            && s.configs == map[d := plan(d)] && HoldsRow(plan, d, s, NEW)
            && s.dests.Keys == {d}
            && s.workers == map[1 := Worker(d, 0, 1, empty.now, s.now, Fetched(Interactions, 0, NIL_KEY, [OLD])),
                                2 := Worker(d, 0, 2, s.now, s.now + RUN_TIMEOUT,
                                              Fetched(Interactions, 0, NIL_KEY, [NEW]))]
  {
    var owner := OneOwner(plan(d).workspace);
    states, steps := Reclaimed(grace, plan, d, empty);
    states, steps := Then(grace, plan, owner, states, steps, ReadCursor(2));
    FetchesOne(states[|steps|], 2, NEW, NIL_KEY);
    states, steps := Then(grace, plan, owner, states, steps, FetchBatch(2));
  }

  lemma Advances(grace: nat, plan: Plan, d: DestId, empty: State) returns (states: seq<State>, steps: seq<Step>)
    requires Initial(empty) && START_GRACE < grace
    ensures Deployed(grace, plan, OneOwner(plan(d).workspace), states, steps)
    ensures var s := states[|steps|];
            && s.cursors == map[(d, Interactions) := NEW.key]
            && s.configs == map[d := plan(d)] && HoldsRow(plan, d, s, NEW)
            && s.dests.Keys == {d}
            && 1 in s.workers
            && s.workers[1] == Worker(d, 0, 1, empty.now, s.now, Fetched(Interactions, 0, NIL_KEY, [OLD]))
  {
    var owner := OneOwner(plan(d).workspace);
    states, steps := FetchesAgain(grace, plan, d, empty);
    states, steps := Then(grace, plan, owner, states, steps, Deliver(2));
    states, steps := Then(grace, plan, owner, states, steps, Advance(2));
  }

  /**
   * With any longer grace one destination is enough: in its last second the job that started
   * late delivers the old row, after the next job has exported the new one.
   */
  lemma LateDrainGoesStale(grace: nat, plan: Plan, d: DestId, empty: State)
      returns (states: seq<State>, steps: seq<Step>)
    requires Initial(empty) && START_GRACE < grace
    ensures Deployed(grace, plan, OneOwner(plan(d).workspace), states, steps)
    ensures Stale(states[|steps|], d)
  {
    states, steps := Advances(grace, plan, d, empty);
    OneRowIsSent(SinkOf(states[|steps|], plan(d).endpoint), Interactions, OLD);
    states, steps := Then(grace, plan, OneOwner(plan(d).workspace), states, steps, Deliver(1));
  }

  lemma StaleBreaks(grace: nat, plan: Plan, owner: Owners, states: seq<State>, steps: seq<Step>, d: DestId)
    requires Deployed(grace, plan, owner, states, steps) && Stale(states[|steps|], d)
    ensures !AlwaysExact(grace, plan)
  {
    StaleIsNotExact(states[|steps|], d);
  }

  /**
   * The exact condition of the strong promise, for every deployment: rows at or below a cursor
   * are in the sink at their current version in all states of all behaviours if and only if
   * drains start within the stale age less the run limit and no two destinations have the same
   * workspace and the same endpoint.
   */
  lemma AlwaysExactIff(grace: nat, plan: Plan)
    ensures AlwaysExact(grace, plan) <==> grace <= 120 && NoRepeats(plan)
  {
    var empty := State(0, map[], map[], map[], map[], map[], map[], map[], map[]);
    if START_GRACE < grace {
      var states, steps := LateDrainGoesStale(grace, plan, 0, empty);
      StaleBreaks(grace, plan, OneOwner(plan(0).workspace), states, steps, 0);
    } else if NoRepeats(plan) {
      NoRepeatsIsExact(grace, plan);
    } else {
      var d, e :| plan(d) == plan(e) && d != e;
      var states, steps := SharedEndpoints.SharedEndpointGoesStale(grace, plan, d, e, empty);
      StaleBreaks(grace, plan, OneOwner(plan(d).workspace), states, steps, e);
    }
  }
}
