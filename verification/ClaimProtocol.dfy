/**
 * Safety of the claim tables over every interleaving of workers, sweeps, crashes and
 * configuration changes: a claim and its running run live and die together.
 */
module ClaimProtocol {
  import opened Basics
  import opened DestinationStore

  /** The running run that goes with a claimed destination. */
  ghost predicate ClaimHasRun(s: State, d: DestId)
    requires d in s.dests
  {
    && (s.dests[d].claimedAt.Some? <==> s.dests[d].claimToken.Some?)
    && (s.dests[d].claimToken.Some? ==>
      && s.dests[d].claimToken.value in s.issued
      && var run := s.issued[s.dests[d].claimToken.value];
      && run in s.runs && s.runs[run].destination == d && s.runs[run].status.Running?
      && Some(s.runs[run].startedAt) == s.dests[d].claimedAt)
  }

  /** A running run belongs to the claim it was issued with. */
  ghost predicate RunHasClaim(s: State, run: RunId)
    requires run in s.runs
  {
    && s.runs[run].destination in s.dests
    && run in s.issued.Values
    && (s.runs[run].status.Running? ==>
      var token := s.dests[s.runs[run].destination].claimToken;
      token.Some? && token.value in s.issued && s.issued[token.value] == run)
  }

  ghost predicate WorkerKnown(s: State, run: RunId)
    requires run in s.workers
  {
    var w := s.workers[run];
    && w.token in s.issued && s.issued[w.token] == run
    && w.destination in s.configs
    && (w.destination in s.dests ==> run in s.runs)
    && (run in s.runs ==> s.runs[run].destination == w.destination && s.runs[run].startedAt == w.claimedAt)
  }

  ghost predicate IssuedOnce(s: State) {
    forall t, u | t in s.issued && u in s.issued && s.issued[t] == s.issued[u] :: t == u
  }

  ghost predicate ClaimInv(s: State) {
    && (forall d | d in s.dests :: d in s.configs && ClaimHasRun(s, d))
    && (forall run | run in s.runs :: RunHasClaim(s, run))
    && (forall run | run in s.workers :: WorkerKnown(s, run))
    && IssuedOnce(s)
  }

  lemma ReleaseKeepsClaims(s: State, before: int)
    requires ClaimInv(s)
    ensures ClaimInv(ApplyRelease(s, before))
  {
    var t := ApplyRelease(s, before);
    forall d | d in t.dests ensures d in t.configs && ClaimHasRun(t, d) {
      ReleaseKeepsHolder(s, before, d);
    }
    forall run | run in t.runs ensures RunHasClaim(t, run) {
      ReleaseKeepsRun(s, before, run);
    }
    forall run | run in t.workers ensures WorkerKnown(t, run) {
      assert WorkerKnown(s, run);
    }
  }

  lemma ReleaseKeepsHolder(s: State, before: int, d: DestId)
    requires d in s.dests && ClaimHasRun(s, d)
    ensures ClaimHasRun(ApplyRelease(s, before), d)
  {}

  lemma ReleaseKeepsRun(s: State, before: int, run: RunId)
    requires run in s.runs && RunHasClaim(s, run) && ClaimHasRun(s, s.runs[run].destination)
    ensures RunHasClaim(ApplyRelease(s, before), run)
  {}

  lemma FreshRun(s: State, run: RunId)
    requires ClaimInv(s)
    requires run !in s.issued.Values
    ensures run !in s.runs && run !in s.workers
  {
    assert forall r | r in s.runs :: RunHasClaim(s, r);
    assert forall r | r in s.workers :: WorkerKnown(s, r);
  }

  lemma ClaimKeepsClaims(s: State, d: DestId, token: Token, run: RunId, trigger: Trigger)
    requires ClaimInv(s)
    requires Enabled(s, Claim(d, token, run, trigger))
    ensures ClaimInv(ApplyClaim(s, d, token, run, trigger))
  {
    var t := ApplyClaim(s, d, token, run, trigger);
    FreshRun(s, run);
    assert t.issued[token] == run;
    forall v | v in s.issued.Values ensures v in t.issued.Values {
      var u :| u in s.issued && s.issued[u] == v;
      assert t.issued[u] == v;
    }
    forall e | e in t.dests ensures e in t.configs && ClaimHasRun(t, e) {
      assert ClaimHasRun(s, e);
    }
    forall r | r in t.runs ensures RunHasClaim(t, r) {
      if r != run { assert RunHasClaim(s, r); assert ClaimHasRun(s, d); }
    }
    forall r | r in t.workers ensures WorkerKnown(t, r) {
      if r != run { assert WorkerKnown(s, r); }
    }
  }

  lemma DeleteKeepsClaims(s: State, d: DestId)
    requires ClaimInv(s)
    ensures ClaimInv(ApplyDelete(s, d))
  {
    var t := ApplyDelete(s, d);
    forall e | e in t.dests ensures e in t.configs && ClaimHasRun(t, e) {
      assert ClaimHasRun(s, e);
    }
    forall r | r in t.runs ensures RunHasClaim(t, r) {
      assert RunHasClaim(s, r);
    }
    forall r | r in t.workers ensures WorkerKnown(t, r) {
      assert WorkerKnown(s, r);
    }
  }

  /** The run and the claim a finishing worker would touch are either both its own or neither. */
  lemma RunningIffHolding(s: State, run: RunId)
    requires ClaimInv(s)
    requires run in s.workers
    ensures var w := s.workers[run];
            (run in s.runs && s.runs[run].status.Running?)
            <==> (w.destination in s.dests && s.dests[w.destination].claimToken == Some(w.token))
    ensures run in s.runs ==> s.runs[run].destination == s.workers[run].destination
  {
    var w := s.workers[run];
    assert WorkerKnown(s, run);
    if run in s.runs {
      assert RunHasClaim(s, run);
    }
    if w.destination in s.dests {
      assert ClaimHasRun(s, w.destination);
    }
  }

  lemma FinishKeepsClaims(s: State, run: RunId)
    requires ClaimInv(s)
    requires Enabled(s, Finish(run))
    ensures ClaimInv(ApplyFinish(s, run))
  {
    var t := ApplyFinish(s, run);
    var w := s.workers[run];
    RunningIffHolding(s, run);
    assert WorkerKnown(s, run);
    forall e | e in t.dests ensures e in t.configs && ClaimHasRun(t, e) {
      assert ClaimHasRun(s, e);
    }
    forall r | r in t.runs ensures RunHasClaim(t, r) {
      assert RunHasClaim(s, r);
    }
    forall r | r in t.workers ensures WorkerKnown(t, r) {
      assert WorkerKnown(s, r);
    }
  }

  /** A step that leaves the claim tables alone and does not change who works on what. */
  lemma UntouchedKeepsClaims(s: State, t: State)
    requires ClaimInv(s)
    requires t.dests.Keys == s.dests.Keys && t.runs == s.runs && t.issued == s.issued && t.configs == s.configs
    requires forall d | d in s.dests ::
             t.dests[d].claimedAt == s.dests[d].claimedAt && t.dests[d].claimToken == s.dests[d].claimToken
    requires forall r | r in t.workers :: r in s.workers && t.workers[r].destination == s.workers[r].destination
               && t.workers[r].token == s.workers[r].token && t.workers[r].claimedAt == s.workers[r].claimedAt
    ensures ClaimInv(t)
  {
    forall d | d in t.dests ensures d in t.configs && ClaimHasRun(t, d) {
      assert ClaimHasRun(s, d);
    }
    forall r | r in t.runs ensures RunHasClaim(t, r) {
      assert RunHasClaim(s, r);
    }
    forall r | r in t.workers ensures WorkerKnown(t, r) {
      assert WorkerKnown(s, r);
    }
  }

  lemma CreateKeepsClaims(s: State, d: DestId, config: Config, interval: nat)
    requires ClaimInv(s)
    requires Enabled(s, Create(d, config, interval))
    ensures ClaimInv(Apply(s, Create(d, config, interval)))
  {
    var t := Apply(s, Create(d, config, interval));
    forall e | e in t.dests ensures e in t.configs && ClaimHasRun(t, e) {
      if e != d { assert ClaimHasRun(s, e); }
    }
    forall r | r in t.runs ensures RunHasClaim(t, r) {
      assert RunHasClaim(s, r);
    }
    forall r | r in t.workers ensures WorkerKnown(t, r) {
      assert WorkerKnown(s, r);
    }
  }

  predicate ClaimStep(step: Step) {
    step.Create? || step.Delete? || step.ReleaseStale? || step.Claim? || step.Finish?
  }

  /** Export steps, source writes and the clock. */
  predicate WorkStep(step: Step) {
    step.StartDrain? || step.ReadCursor? || step.FetchBatch? || step.Deliver? || step.DeliverInPart? || step.Advance?
  }

  lemma WorkStepKeepsClaims(s: State, step: Step)
    requires ClaimInv(s)
    requires Enabled(s, step) && WorkStep(step)
    ensures ClaimInv(Apply(s, step))
  {
    if step.Deliver? || step.DeliverInPart? || step.Advance? {
      SendStepKeepsClaims(s, step);
    } else {
      UntouchedKeepsClaims(s, Apply(s, step));
    }
  }

  lemma SendStepKeepsClaims(s: State, step: Step)
    requires ClaimInv(s)
    requires Enabled(s, step) && (step.Deliver? || step.DeliverInPart? || step.Advance?)
    ensures ClaimInv(Apply(s, step))
  {
    UntouchedKeepsClaims(s, Apply(s, step));
  }

  lemma PlainStep(s: State, step: Step)
    requires ClaimInv(s)
    requires Enabled(s, step) && !ClaimStep(step)
    ensures ClaimInv(Apply(s, step))
  {
    if WorkStep(step) {
      WorkStepKeepsClaims(s, step);
    } else {
      UntouchedKeepsClaims(s, Apply(s, step));
    }
  }

  /** Every step keeps the claim invariant, whatever bound a sweep was called with. */
  lemma StepKeepsClaims(s: State, step: Step)
    requires ClaimInv(s)
    requires Enabled(s, step)
    ensures ClaimInv(Apply(s, step))
  {
    match step
    case Create(d, config, interval) => CreateKeepsClaims(s, d, config, interval);
    case Delete(d) => DeleteKeepsClaims(s, d);
    case ReleaseStale(before) => ReleaseKeepsClaims(s, before);
    case Claim(d, token, run, trigger) => ClaimKeepsClaims(s, d, token, run, trigger);
    case Finish(run) => FinishKeepsClaims(s, run);
    case _ => PlainStep(s, step);
  }

  lemma {:induction false} BehaviourKeepsClaims(states: seq<State>, steps: seq<Step>, n: nat)
    requires Behaviour(states, steps)
    requires n < |states|
    ensures ClaimInv(states[n])
  {
    if n > 0 {
      BehaviourKeepsClaims(states, steps, n - 1);
      StepKeepsClaims(states[n - 1], steps[n - 1]);
    }
  }

  function RunningRuns(s: State, d: DestId): set<RunId> {
    set r | r in s.runs && s.runs[r].destination == d && s.runs[r].status.Running?
  }

  /**
   * In every reachable state a destination has a claim time iff it has a claim token iff
   * it has a running run, and never more than one; a destination that is gone has none.
   */
  lemma ClaimTimeTokenAndRunAgree(states: seq<State>, steps: seq<Step>, n: nat, d: DestId)
    requires Behaviour(states, steps)
    requires n < |states|
    ensures var s := states[n];
            d in s.dests ==>
              && (s.dests[d].claimedAt.Some? <==> s.dests[d].claimToken.Some?)
              && |RunningRuns(s, d)| == if s.dests[d].claimedAt.Some? then 1 else 0
    ensures d !in states[n].dests ==> forall r | r in states[n].runs :: states[n].runs[r].destination != d
  {
    var s := states[n];
    BehaviourKeepsClaims(states, steps, n);
    forall r | r in s.runs ensures RunHasClaim(s, r) {}
    if d in s.dests {
      assert ClaimHasRun(s, d);
      if s.dests[d].claimToken.Some? {
        assert RunningRuns(s, d) == {s.issued[s.dests[d].claimToken.value]};
      } else {
        assert RunningRuns(s, d) == {};
      }
    }
  }

  /** A run leaves `running` once: a settled run is never written again, only deleted. */
  lemma SettledRunNeverChanges(s: State, step: Step, run: RunId)
    requires ClaimInv(s)
    requires Enabled(s, step)
    requires run in s.runs && !s.runs[run].status.Running?
    ensures var t := Apply(s, step);
            if run in t.runs then t.runs[run] == s.runs[run] else step == Delete(s.runs[run].destination)
  {
    assert RunHasClaim(s, run);
  }

  /** The same over any stretch of a behaviour. */
  lemma {:induction false} SettledForever(states: seq<State>, steps: seq<Step>, m: nat, n: nat, run: RunId)
    requires Behaviour(states, steps)
    requires m <= n < |states|
    requires run in states[m].runs && !states[m].runs[run].status.Running?
    ensures run in states[n].runs ==> states[n].runs[run] == states[m].runs[run]
    ensures run in states[n].issued.Values
  {
    BehaviourKeepsClaims(states, steps, m);
    if m == n {
      assert RunHasClaim(states[n], run);
    } else {
      SettledForever(states, steps, m, n - 1, run);
      BehaviourKeepsClaims(states, steps, n - 1);
      IssuedStays(states[n - 1], steps[n - 1], run);
      if run in states[n - 1].runs {
        SettledRunNeverChanges(states[n - 1], steps[n - 1], run);
      }
    }
  }

  lemma IssuedStays(s: State, step: Step, run: RunId)
    requires Enabled(s, step)
    requires run in s.issued.Values
    ensures run in Apply(s, step).issued.Values
  {
    var u :| u in s.issued && s.issued[u] == run;
    assert u in Apply(s, step).issued && Apply(s, step).issued[u] == run;
  }

  /**
   * A sweep frees exactly the claims taken before its bound and fails exactly their runs:
   * afterwards a destination it freed has no running run, and nothing of any other changed.
   */
  lemma SweepFreesStaleClaims(s: State, before: int, d: DestId)
    requires ClaimInv(s) && d in s.dests
    ensures var t := ApplyRelease(s, before);
            if Older(s.dests[d].claimedAt, before) then
              && t.dests[d].claimedAt.None? && t.dests[d].claimToken.None? && RunningRuns(t, d) == {}
              && |RunningRuns(s, d)| == 1
              && forall r | r in RunningRuns(s, d) :: t.runs[r].status.Failed? && t.runs[r].error == Some(STALE_ERROR)
            else
              && t.dests[d] == s.dests[d]
              && forall r | r in s.runs && s.runs[r].destination == d :: t.runs[r] == s.runs[r]
  {
    var t := ApplyRelease(s, before);
    assert ClaimHasRun(s, d);
    forall r | r in RunningRuns(s, d)
      ensures Some(s.runs[r].startedAt) == s.dests[d].claimedAt && r == s.issued[s.dests[d].claimToken.value] {
      assert RunHasClaim(s, r);
    }
    if s.dests[d].claimedAt.Some? {
      assert RunningRuns(s, d) == {s.issued[s.dests[d].claimToken.value]};
    }
  }

  /** The first 500 characters of an error. */
  predicate Shortened(stored: string, error: string) {
    if |error| <= 500 then stored == error else |stored| == 500 && stored <= error
  }

  /** What a run row says of an outcome recorded at a time. */
  predicate Tells(r: Run, outcome: Outcome, now: int) {
    && r.finishedAt == Some(now)
    && match outcome
       case Exported(n) => r.status == Succeeded && r.recordsExported == n && r.error == None
       case Broken(e) => r.status == Failed && r.recordsExported == 0 && r.error.Some? && Shortened(r.error.value, e)
  }

  predicate SameStart(a: Run, b: Run) {
    a.destination == b.destination && a.trigger == b.trigger && a.startedAt == b.startedAt
  }

  /**
   * A worker whose claim was released or taken over changes nothing in the store when it
   * finishes: it only leaves. A worker that still holds its claim records a success with its
   * count, or a failure with the first 500 characters of its error, frees the destination, and
   * schedules the next sync after the interval, or five minutes after a failure.
   */
  lemma LateFinishIsANoOp(s: State, run: RunId)
    requires ClaimInv(s)
    requires Enabled(s, Finish(run))
    ensures var w := s.workers[run];
            var t := Apply(s, Finish(run));
            && run !in t.workers && (forall r | r in s.workers && r != run :: r in t.workers)
            && if w.destination in s.dests && s.dests[w.destination].claimToken == Some(w.token) then
              && run in s.runs && run in t.runs && Tells(t.runs[run], w.phase.outcome, s.now)
              && SameStart(s.runs[run], t.runs[run])
              && t.dests[w.destination] == Destination(
                   s.dests[w.destination].enabled, s.dests[w.destination].interval,
                   s.now + (if w.phase.outcome.Exported? then w.interval else 300), None, None)
              && t == s.(workers := t.workers, runs := s.runs[run := t.runs[run]],
                         dests := s.dests[w.destination := t.dests[w.destination]])
            else
              t == s.(workers := t.workers)
  {
    RunningIffHolding(s, run);
  }
}
