/**
 * What the three time limits are for: exporters stop at their run limit, no claim is swept
 * before every exporter that could hold it has stopped, and so a destination has one live
 * exporter at most, exactly as long as drains start soon enough after their claim.
 */
module TimelyExports {
  import opened Basics
  import opened DestinationStore
  import opened ClaimProtocol

  /** How late after its claim a drain may start for the limits to add up. */
  const START_GRACE: nat := STALE_CLAIM_AGE - RUN_TIMEOUT

  /**
   * Sweeps use the stale age, drains start within `grace` of their claim, and a timed-out worker
   * does nothing further.
   */
  predicate PunctualWithin(grace: nat, s: State, step: Step)
    requires Enabled(s, step)
  {
    match step
    case ReleaseStale(before) => before <= s.now - STALE_CLAIM_AGE
    case StartDrain(run) => s.now <= s.workers[run].claimedAt + grace
    case ReadCursor(run) => s.now <= s.workers[run].deadline
    case FetchBatch(run) => s.now <= s.workers[run].deadline
    case Deliver(run) => s.now <= s.workers[run].deadline
    case DeliverInPart(run, _, _) => s.now <= s.workers[run].deadline
    case Advance(run) => s.now <= s.workers[run].deadline
    case _ => true
  }

  predicate Punctual(s: State, step: Step)
    requires Enabled(s, step)
  {
    PunctualWithin(START_GRACE, s, step)
  }

  ghost predicate BehaviourWithin(grace: nat, states: seq<State>, steps: seq<Step>) {
    Behaviour(states, steps) && forall i | 0 <= i < |steps| :: PunctualWithin(grace, states[i], steps[i])
  }

  ghost predicate PunctualBehaviour(states: seq<State>, steps: seq<Step>) {
    BehaviourWithin(START_GRACE, states, steps)
  }

  /** A worker that may still read, deliver or advance. */
  predicate Live(s: State, run: RunId) {
    run in s.workers && !s.workers[run].phase.Ended? && s.now <= s.workers[run].deadline
  }

  ghost predicate LiveHoldsClaim(s: State, run: RunId)
    requires run in s.workers
  {
    var w := s.workers[run];
    && w.deadline <= w.claimedAt + STALE_CLAIM_AGE
    && (w.phase.Claimed? ==> w.deadline == w.claimedAt + STALE_CLAIM_AGE)
    && (Live(s, run) && w.destination in s.dests ==>
          s.dests[w.destination].claimToken == Some(w.token) && s.dests[w.destination].claimedAt == Some(w.claimedAt))
  }

  ghost predicate SingleInv(s: State) {
    && ClaimInv(s)
    && (forall run | run in s.workers :: LiveHoldsClaim(s, run))
    && (forall r, q | Live(s, r) && Live(s, q) && s.workers[r].destination == s.workers[q].destination :: r == q)
  }

  lemma ReleaseKeepsSingle(s: State, before: int)
    requires SingleInv(s) && before <= s.now - STALE_CLAIM_AGE
    ensures SingleInv(ApplyRelease(s, before))
  {
    var t := ApplyRelease(s, before);
    ReleaseKeepsClaims(s, before);
    forall run | run in t.workers ensures LiveHoldsClaim(t, run) {
      assert LiveHoldsClaim(s, run);
    }
    assert forall r :: Live(t, r) <==> Live(s, r);
  }

  lemma ClaimKeepsSingle(s: State, d: DestId, token: Token, run: RunId, trigger: Trigger)
    requires SingleInv(s) && Enabled(s, Claim(d, token, run, trigger))
    ensures SingleInv(ApplyClaim(s, d, token, run, trigger))
  {
    var t := ApplyClaim(s, d, token, run, trigger);
    ClaimKeepsClaims(s, d, token, run, trigger);
    FreshRun(s, run);
    forall r | r in t.workers ensures LiveHoldsClaim(t, r) {
      if r != run { ClaimSparesOthers(s, d, token, run, trigger, r); }
    }
    forall r | Live(t, r) && r != run ensures Live(s, r) && t.workers[r].destination != d {
      ClaimSparesOthers(s, d, token, run, trigger, r);
    }
  }

  /** Only an unclaimed destination is claimed, so no exporter of it is live. */
  lemma ClaimSparesOthers(s: State, d: DestId, token: Token, run: RunId, trigger: Trigger, r: RunId)
    requires Enabled(s, Claim(d, token, run, trigger)) && r in s.workers && r != run && LiveHoldsClaim(s, r)
    ensures var t := ApplyClaim(s, d, token, run, trigger);
            LiveHoldsClaim(t, r) && (Live(t, r) ==> Live(s, r) && t.workers[r].destination != d)
  {}

  lemma FinishKeepsSingle(s: State, run: RunId)
    requires SingleInv(s) && Enabled(s, Finish(run))
    ensures SingleInv(ApplyFinish(s, run))
  {
    var t := ApplyFinish(s, run);
    FinishKeepsClaims(s, run);
    assert WorkerKnown(s, run);
    forall r | r in t.workers ensures LiveHoldsClaim(t, r) {
      assert LiveHoldsClaim(s, r) && WorkerKnown(s, r);
      FinishSparesOthers(s, run, r);
    }
    assert forall r | Live(t, r) :: Live(s, r);
  }

  /** The claim that is given up is the finishing worker's own. */
  lemma FinishSparesOthers(s: State, run: RunId, r: RunId)
    requires Enabled(s, Finish(run)) && r in s.workers && r != run && LiveHoldsClaim(s, r)
    requires WorkerKnown(s, run) && WorkerKnown(s, r)
    ensures LiveHoldsClaim(ApplyFinish(s, run), r)
  {}

  /** Steps that touch no claim, start no worker and give none more time. */
  lemma UntouchedKeepsSingle(s: State, t: State)
    requires SingleInv(s) && ClaimInv(t)
    requires s.now <= t.now
    requires forall d | d in t.dests ::
             d in s.dests && t.dests[d].claimedAt == s.dests[d].claimedAt
                 && t.dests[d].claimToken == s.dests[d].claimToken
    requires forall r | r in t.workers :: r in s.workers && t.workers[r].destination == s.workers[r].destination
               && t.workers[r].token == s.workers[r].token && t.workers[r].claimedAt == s.workers[r].claimedAt
               && t.workers[r].deadline == s.workers[r].deadline
               && (s.workers[r].phase.Ended? ==> t.workers[r].phase.Ended?)
               && (t.workers[r].phase.Claimed? ==> s.workers[r].phase.Claimed?)
    ensures SingleInv(t)
  {
    forall r | r in t.workers ensures LiveHoldsClaim(t, r) {
      assert LiveHoldsClaim(s, r);
    }
    assert forall r | Live(t, r) :: Live(s, r);
  }

  lemma CreateKeepsSingle(s: State, d: DestId, config: Config, interval: nat)
    requires SingleInv(s) && Enabled(s, Create(d, config, interval))
    ensures SingleInv(Apply(s, Create(d, config, interval)))
  {
    var t := Apply(s, Create(d, config, interval));
    CreateKeepsClaims(s, d, config, interval);
    forall r | r in t.workers ensures LiveHoldsClaim(t, r) {
      assert LiveHoldsClaim(s, r) && WorkerKnown(s, r);
    }
    assert forall r :: Live(t, r) <==> Live(s, r);
  }

  lemma StartDrainKeepsSingle(s: State, run: RunId)
    requires SingleInv(s) && Enabled(s, StartDrain(run)) && Punctual(s, StartDrain(run))
    ensures SingleInv(ApplyStartDrain(s, run))
  {
    var t := ApplyStartDrain(s, run);
    UntouchedKeepsClaims(s, t);
    forall r | r in t.workers ensures LiveHoldsClaim(t, r) && (Live(t, r) && r != run ==> Live(s, r)) {
      assert LiveHoldsClaim(s, r);
    }
    assert Live(s, run) by {
      assert LiveHoldsClaim(s, run);
    }
  }

  lemma WorkStepKeepsSingle(s: State, step: Step)
    requires SingleInv(s) && Enabled(s, step)
    requires WorkStep(step) && !step.StartDrain?
    ensures SingleInv(Apply(s, step))
  {
    WorkStepKeepsClaims(s, step);
    if step.Advance? || step.DeliverInPart? {
      LateWorkKeepsSingle(s, step);
    } else {
      UntouchedKeepsSingle(s, Apply(s, step));
    }
  }

  lemma LateWorkKeepsSingle(s: State, step: Step)
    requires SingleInv(s) && Enabled(s, step) && ClaimInv(Apply(s, step))
    requires step.Advance? || step.DeliverInPart?
    ensures SingleInv(Apply(s, step))
  {
    if step.Advance? {
      AdvanceKeepsSingle(s, step.run);
    } else {
      UntouchedKeepsSingle(s, Apply(s, step));
    }
  }

  lemma AdvanceKeepsSingle(s: State, run: RunId)
    requires SingleInv(s) && Enabled(s, Advance(run)) && ClaimInv(Apply(s, Advance(run)))
    ensures SingleInv(Apply(s, Advance(run)))
  {
    UntouchedKeepsSingle(s, Apply(s, Advance(run)));
  }

  lemma RestKeepsSingle(s: State, step: Step)
    requires SingleInv(s) && Enabled(s, step)
    requires !WorkStep(step) && (ClaimStep(step) ==> step.Delete?)
    ensures SingleInv(Apply(s, step))
  {
    StepKeepsClaims(s, step);
    UntouchedKeepsSingle(s, Apply(s, step));
  }

  lemma ClaimStepKeepsSingle(s: State, step: Step)
    requires SingleInv(s) && Enabled(s, step) && Punctual(s, step)
    requires step.ReleaseStale? || step.Claim? || step.Finish? || step.Create? || step.StartDrain?
    ensures SingleInv(Apply(s, step))
  {
    match step
    case ReleaseStale(before) => ReleaseKeepsSingle(s, before);
    case Claim(d, token, run, trigger) => ClaimKeepsSingle(s, d, token, run, trigger);
    case Finish(run) => FinishKeepsSingle(s, run);
    case Create(d, config, interval) => CreateKeepsSingle(s, d, config, interval);
    case StartDrain(run) => StartDrainKeepsSingle(s, run);
  }

  lemma StepKeepsSingle(s: State, step: Step)
    requires SingleInv(s) && Enabled(s, step) && Punctual(s, step)
    ensures SingleInv(Apply(s, step))
  {
    if step.ReleaseStale? || step.Claim? || step.Finish? || step.Create? || step.StartDrain? {
      ClaimStepKeepsSingle(s, step);
    } else if WorkStep(step) {
      WorkStepKeepsSingle(s, step);
    } else {
      RestKeepsSingle(s, step);
    }
  }

  lemma {:induction false} BehaviourKeepsSingle(states: seq<State>, steps: seq<Step>, n: nat)
    requires PunctualBehaviour(states, steps)
    requires n < |states|
    ensures SingleInv(states[n])
  {
    if n > 0 {
      BehaviourKeepsSingle(states, steps, n - 1);
      StepKeepsSingle(states[n - 1], steps[n - 1]);
    }
  }

  /** With punctual clocks a destination never has two live exporters, not even across a delete. */
  lemma AtMostOneLiveExporter(states: seq<State>, steps: seq<Step>, n: nat, d: DestId)
    requires PunctualBehaviour(states, steps)
    requires n < |states|
    ensures |LiveExporters(states[n], d)| <= 1
  {
    BehaviourKeepsSingle(states, steps, n);
    var live := LiveExporters(states[n], d);
    if live != {} {
      var r :| r in live;
      assert live == {r};
    }
  }

  function LiveExporters(s: State, d: DestId): set<RunId> {
    set r | r in s.workers && Live(s, r) && s.workers[r].destination == d
  }

  // ------------------------------------------------------------------ why drains must start promptly

  /** A bound on the start of drains that leaves no behaviour with two exporters of one destination. */
  ghost predicate ExcludesSecond(grace: nat) {
    forall states, steps, n, d | BehaviourWithin(grace, states, steps) && 0 <= n < |states| ::
      |LiveExporters(states[n], d)| <= 1
  }

  /** The bound is exact: what is left of the stale age once a run has had its time, and nothing more. */
  lemma ExcludesSecondIff(grace: nat)
    ensures ExcludesSecond(grace) <==> grace <= 120
  {
    if grace <= START_GRACE {
      forall states, steps, n, d | BehaviourWithin(grace, states, steps) && 0 <= n < |states|
        ensures |LiveExporters(states[n], d)| <= 1
      {
        AtMostOneLiveExporter(states, steps, n, d);
      }
    } else {
      var empty := State(0, map[], map[], map[], map[], map[], map[], map[], map[]);
      var states, steps := LateStartsOverlap(grace, empty, Config(0, 0));
      TwoAreTwo(states[|steps|], 1, 2);
    }
  }

  lemma TwoAreTwo(s: State, r: RunId, q: RunId)
    requires r != q && Live(s, r) && Live(s, q) && s.workers[r].destination == s.workers[q].destination
    ensures |LiveExporters(s, s.workers[r].destination)| >= 2
  {
    var rest := LiveExporters(s, s.workers[r].destination) - {r};
    assert q in rest;
    assert LiveExporters(s, s.workers[r].destination) == rest + {r};
  }

  /** Any behaviour can go on with any enabled step that is in time. */
  lemma OneStepMore(grace: nat, states: seq<State>, steps: seq<Step>, step: Step)
    returns (more: seq<State>, taken: seq<Step>)
    requires BehaviourWithin(grace, states, steps)
    requires Enabled(states[|steps|], step) && PunctualWithin(grace, states[|steps|], step)
    ensures BehaviourWithin(grace, more, taken) && more[0] == states[0]
    ensures taken == steps + [step] && more[|taken|] == Apply(states[|steps|], step)
  {
    more, taken := states + [Apply(states[|steps|], step)], steps + [step];
    forall i | 0 <= i < |taken|
      ensures Enabled(more[i], taken[i]) && more[i + 1] == Apply(more[i], taken[i])
              && PunctualWithin(grace, more[i], taken[i])
    {
      if i < |steps| {
        assert more[i] == states[i] && taken[i] == steps[i] && more[i + 1] == states[i + 1];
      }
    }
  }

  lemma ClaimedOnce(grace: nat, empty: State, config: Config) returns (states: seq<State>, steps: seq<Step>)
    requires Initial(empty)
    ensures BehaviourWithin(grace, states, steps) && states[0] == empty
    ensures var s := states[|steps|];
            && s.now == empty.now && s.issued == map[1 := 1]
            && s.dests == map[0 := Destination(true, 0, empty.now, Some(empty.now), Some(1))]
            && s.workers == map[1 := Worker(0, 0, 1, empty.now, empty.now + STALE_CLAIM_AGE, Claimed)]
  {
    states, steps := OneStepMore(grace, [empty], [], Create(0, config, 0));
    states, steps := OneStepMore(grace, states, steps, Claim(0, 1, 1, Scheduled));
  }

  /** The drain starts one second later than the limits leave room for, and runs up to its own limit. */
  lemma StartedLate(grace: nat, empty: State, config: Config) returns (states: seq<State>, steps: seq<Step>)
    requires Initial(empty) && START_GRACE < grace
    ensures BehaviourWithin(grace, states, steps) && states[0] == empty
    ensures var s := states[|steps|];
            && s.now == empty.now + STALE_CLAIM_AGE + 1 && s.issued == map[1 := 1]
            && s.dests == map[0 := Destination(true, 0, empty.now, Some(empty.now), Some(1))]
            && s.workers == map[1 := Worker(0, 0, 1, empty.now, s.now, LoopHead(Interactions, 0))]
  {
    states, steps := ClaimedOnce(grace, empty, config);
    states, steps := OneStepMore(grace, states, steps, Tick(START_GRACE + 1));
    states, steps := OneStepMore(grace, states, steps, StartDrain(1));
    states, steps := OneStepMore(grace, states, steps, Tick(RUN_TIMEOUT));
  }

  /**
   * Any longer grace admits a second exporter: in its last second the job that started late
   * still exports when its claim has been swept and the destination claimed again.
   */
  lemma LateStartsOverlap(grace: nat, empty: State, config: Config) returns (states: seq<State>, steps: seq<Step>)
    requires Initial(empty) && START_GRACE < grace
    ensures BehaviourWithin(grace, states, steps) && states[0] == empty
    ensures var last := states[|steps|];
            && Live(last, 1) && Exporting(last.workers[1].phase)
            && Live(last, 2) && Exporting(last.workers[2].phase)
            && last.workers[1].destination == last.workers[2].destination
  {
    states, steps := StartedLate(grace, empty, config);
    states, steps := OneStepMore(grace, states, steps, ReleaseStale(empty.now + 1));
    states, steps := OneStepMore(grace, states, steps, Claim(0, 2, 2, Scheduled));
    states, steps := OneStepMore(grace, states, steps, StartDrain(2));
  }
}
