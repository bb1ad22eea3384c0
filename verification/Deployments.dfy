/** Which deployments keep the strong promise: what their destinations are, and how soon drains start. */
module Deployments {
  import opened Basics
  import opened ExportTable
  import opened DestinationStore
  import opened CursorCoverage
  import opened TimelyExports
  import opened ExactSinks

  /** The workspace and endpoint each destination is created with. */
  type Plan = DestId -> Config

  predicate FollowsPlan(plan: Plan, step: Step) {
    step.Create? ==> step.config == plan(step.d)
  }

  /** A behaviour of a deployment whose drains start within `grace` of their claim. */
  ghost predicate Deployed(grace: nat, plan: Plan, owner: Owners, states: seq<State>, steps: seq<Step>) {
    && BehaviourWithin(grace, states, steps)
    && forall i | 0 <= i < |steps| :: FollowsPlan(plan, steps[i]) && OwnIds(owner, steps[i])
  }

  /** Every source row at or below a cursor is in its destination's sink at its current version. */
  ghost predicate Exact(s: State) {
    forall d, stream | d in s.dests && d in s.configs :: ExactFor(s, d, stream)
  }

  ghost predicate ExactFor(s: State, d: DestId, stream: Stream)
    requires d in s.configs
  {
    Covered(SourceOf(s, s.configs[d].workspace, stream).rows, SinkOf(s, s.configs[d].endpoint), stream,
            CursorOf(s, d, stream), true)
  }

  ghost predicate AlwaysExact(grace: nat, plan: Plan) {
    forall owner, states, steps, n | Deployed(grace, plan, owner, states, steps) && 0 <= n < |states| ::
      Exact(states[n])
  }

  /** No two destinations, deleted ones included, export one workspace to one endpoint. */
  ghost predicate NoRepeats(plan: Plan) {
    forall d, e | plan(d) == plan(e) :: d == e
  }

  ghost predicate ConfigsFollow(plan: Plan, s: State) {
    forall d | d in s.configs :: s.configs[d] == plan(d)
  }

  lemma {:induction false} ConfigsFollowPlan(grace: nat, plan: Plan, owner: Owners, states: seq<State>,
      steps: seq<Step>, n: nat)
    requires Deployed(grace, plan, owner, states, steps) && n < |states|
    ensures ConfigsFollow(plan, states[n])
  {
    if n > 0 {
      ConfigsFollowPlan(grace, plan, owner, states, steps, n - 1);
      StepFollowsPlan(plan, states[n - 1], steps[n - 1]);
    }
  }

  lemma StepFollowsPlan(plan: Plan, s: State, step: Step)
    requires ConfigsFollow(plan, s) && Enabled(s, step) && FollowsPlan(plan, step)
    ensures ConfigsFollow(plan, Apply(s, step))
  {}

  /** Without repeats the one live exporter of a destination has no rival. */
  lemma NoRepeatsTakesTurns(plan: Plan, s: State, step: Step)
    requires NoRepeats(plan) && ConfigsFollow(plan, s) && SingleInv(s) && Enabled(s, step) && Punctual(s, step)
    ensures TakesTurns(s, step)
  {
    if step.FetchBatch? {
      forall q | q in s.workers ensures !Rival(s, step.run, q) {
        var d, e := s.workers[step.run].destination, s.workers[q].destination;
        assert SharesConfig(s, d, e) ==> plan(d) == plan(e);
        assert Live(s, step.run);
      }
    }
  }

  lemma DeployedIsTimely(grace: nat, plan: Plan, owner: Owners, states: seq<State>, steps: seq<Step>)
    requires Deployed(grace, plan, owner, states, steps) && grace <= START_GRACE && NoRepeats(plan)
    ensures TimelyBehaviour(owner, states, steps)
  {
    assert PunctualBehaviour(states, steps);
    forall i | 0 <= i < |steps| ensures TakesTurns(states[i], steps[i]) {
      ConfigsFollowPlan(grace, plan, owner, states, steps, i);
      BehaviourKeepsSingle(states, steps, i);
      NoRepeatsTakesTurns(plan, states[i], steps[i]);
    }
  }

  lemma TimelyIsExact(owner: Owners, states: seq<State>, steps: seq<Step>, n: nat)
    requires TimelyBehaviour(owner, states, steps) && n < |states|
    ensures Exact(states[n])
  {
    var s := states[n];
    forall d, stream | d in s.dests && d in s.configs ensures ExactFor(s, d, stream) {
      forall row | row in SourceOf(s, s.configs[d].workspace, stream).rows && AtMost(row.key, CursorOf(s, d, stream))
        ensures var sink := SinkOf(s, s.configs[d].endpoint);
                SinkKey(stream, row.key.id) in sink && sink[SinkKey(stream, row.key.id)] == row
      {
        SinkMatchesBelowTheCursor(owner, states, steps, n, d, stream, row);
      }
    }
  }

  /** With prompt drains and no repeats, every behaviour is exact throughout. */
  lemma NoRepeatsIsExact(grace: nat, plan: Plan)
    requires grace <= START_GRACE && NoRepeats(plan)
    ensures AlwaysExact(grace, plan)
  {
    forall owner, states: seq<State>, steps, n | Deployed(grace, plan, owner, states, steps) && 0 <= n < |states|
      ensures Exact(states[n])
    {
      DeployedIsTimely(grace, plan, owner, states, steps);
      TimelyIsExact(owner, states, steps, n);
    }
  }

  // ------------------------------------------------------------------ runs of a deployment

  /** All rows of the runs below belong to one workspace. */
  function OneOwner(workspace: Workspace): Owners {
    (id: nat) => workspace
  }

  /** Any run of a deployment can go on with any enabled step that is in time. */
  lemma Then(grace: nat, plan: Plan, owner: Owners, states: seq<State>, steps: seq<Step>, step: Step)
      returns (more: seq<State>, taken: seq<Step>)
    requires Deployed(grace, plan, owner, states, steps) && FollowsPlan(plan, step) && OwnIds(owner, step)
    requires Enabled(states[|steps|], step) && PunctualWithin(grace, states[|steps|], step)
    ensures Deployed(grace, plan, owner, more, taken)
    ensures more[|taken|] == Apply(states[|steps|], step)
  {
    more, taken := OneStepMore(grace, states, steps, step);
  }

  const OLD := Row(Key(1, 7), "old")
  const NEW := Row(Key(2, 7), "new")

  lemma OneRowIsFetched(row: Row, cursor: Key, limit: nat)
    requires Less(cursor, row.key) && 0 < limit
    ensures Fetch([row], cursor, limit) == [row]
  {
    assert After([row], cursor) == [row] + After([], cursor);
  }

  lemma OneRowIsReplaced(row: Row, other: Row)
    requires row.key.id == other.key.id
    ensures Without([], row.key.id) + [row] == [row]
    ensures Without([row], other.key.id) + [other] == [other]
  {
    assert Without([row], other.key.id) == [] + Without([], other.key.id);
  }

  lemma OneRowIsSent(sink: Sink, stream: Stream, row: Row)
    ensures Upsert(sink, stream, [row]) == sink[SinkKey(stream, row.key.id) := row]
  {
    assert [row][..0] == [];
  }

  /** The destination's one source row. */
  predicate HoldsRow(plan: Plan, d: DestId, s: State, row: Row) {
    s.sources == map[(plan(d).workspace, Interactions) := Source([row], row.key)]
  }

  /** A destination and a source row. */
  lemma Created(grace: nat, plan: Plan, d: DestId, empty: State) returns (states: seq<State>, steps: seq<Step>)
    requires Initial(empty)
    ensures Deployed(grace, plan, OneOwner(plan(d).workspace), states, steps)
    ensures states[|steps|] == empty.(
              dests := map[d := Destination(true, 0, empty.now, None, None)],
              configs := map[d := plan(d)],
              sources := map[(plan(d).workspace, Interactions) := Source([OLD], OLD.key)])
  {
    var owner := OneOwner(plan(d).workspace);
    states, steps := Then(grace, plan, owner, [empty], [], Create(d, plan(d), 0));
    OneRowIsReplaced(OLD, OLD);
    states, steps := Then(grace, plan, owner, states, steps, Write(plan(d).workspace, Interactions, OLD));
  }

  /** The sink holds the old row although the cursor is past the new one. */
  predicate Stale(s: State, d: DestId) {
    && d in s.dests && d in s.configs
    && NEW in SourceOf(s, s.configs[d].workspace, Interactions).rows
    && AtMost(NEW.key, CursorOf(s, d, Interactions))
    && SinkKey(Interactions, NEW.key.id) in SinkOf(s, s.configs[d].endpoint)
    && SinkOf(s, s.configs[d].endpoint)[SinkKey(Interactions, NEW.key.id)] == OLD
  }

  lemma StaleIsNotExact(s: State, d: DestId)
    requires Stale(s, d)
    ensures !Exact(s)
  {
    assert !ExactFor(s, d, Interactions);
  }

  /** A worker that has read the nil cursor fetches the one row there is. */
  lemma FetchesOne(s: State, run: RunId, row: Row, cursor: Key)
    requires run in s.workers && s.workers[run].phase == CursorRead(Interactions, 0, cursor)
    requires s.workers[run].destination in s.configs && Less(cursor, row.key)
    requires SourceOf(s, s.configs[s.workers[run].destination].workspace, Interactions).rows == [row]
    ensures Enabled(s, FetchBatch(run))
    ensures Apply(s, FetchBatch(run)) == WithPhase(s, run, Fetched(Interactions, 0, cursor, [row]))
  {
    OneRowIsFetched(row, cursor, BatchLimit(0));
  }
}
