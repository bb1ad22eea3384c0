/** What the run rows record, over every behaviour: how each run ended, and nothing else. */
module RunRecords {
  import opened Basics
  import opened DestinationStore
  import opened ClaimProtocol

  /** The run was claimed at an earlier step; the row and the job say so. */
  predicate ClaimedAs(s: State, step: Step, run: RunId, d: DestId, startedAt: int) {
    step.Claim? && step.run == run && step.d == d && s.now == startedAt
  }

  /** The run's worker ended so, and its finish recorded it. */
  predicate FinishedAs(s: State, step: Step, run: RunId, r: Run) {
    && step == Finish(run) && run in s.workers && s.workers[run].phase.Ended?
    && Tells(r, s.workers[run].phase.outcome, s.now)
  }

  /** A sweep gave the run up. */
  predicate SweptAs(s: State, step: Step, r: Run) {
    && step.ReleaseStale? && r.startedAt < step.before
    && r.status == Failed && r.recordsExported == 0 && r.finishedAt == Some(s.now)
    && r.error == Some("Sync worker restarted before the run finished")
  }

  ghost predicate Explained(states: seq<State>, steps: seq<Step>, n: nat, run: RunId, r: Run)
    requires n <= |steps| < |states|
  {
    if r.status.Running? then r.recordsExported == 0 && r.error == None && r.finishedAt == None
    else exists i | 0 <= i < n :: FinishedAs(states[i], steps[i], run, r) || SweptAs(states[i], steps[i], r)
  }

  ghost predicate Started(states: seq<State>, steps: seq<Step>, n: nat, run: RunId, r: Run)
    requires n <= |steps| < |states|
  {
    exists i | 0 <= i < n ::
      ClaimedAs(states[i], steps[i], run, r.destination, r.startedAt) && r.trigger == steps[i].trigger
  }

  lemma RunStep(s: State, step: Step, run: RunId)
    requires ClaimInv(s) && Enabled(s, step) && run in Apply(s, step).runs
    ensures var t := Apply(s, step);
            if run !in s.runs then
              && step.Claim? && step.run == run
              && t.runs[run] == Run(step.d, step.trigger, Running, 0, None, s.now, None)
            else
              || t.runs[run] == s.runs[run]
              || (s.runs[run].status.Running? && FinishedAs(s, step, run, t.runs[run])
                  && SameStart(s.runs[run], t.runs[run]))
              || (s.runs[run].status.Running? && s.runs[run].recordsExported == t.runs[run].recordsExported
                  && step.ReleaseStale? && t.runs[run].status == Failed && t.runs[run].finishedAt == Some(s.now)
                  && t.runs[run].startedAt < step.before && SameStart(s.runs[run], t.runs[run])
                  && t.runs[run].error == Some("Sync worker restarted before the run finished"))
  {}

  ghost predicate RowTells(states: seq<State>, steps: seq<Step>, n: nat, run: RunId, r: Run)
    requires n <= |steps| < |states|
  {
    Started(states, steps, n, run, r) && Explained(states, steps, n, run, r)
  }

  /** A row that is new, stays, or is settled by this step. */
  lemma RowGoesOn(states: seq<State>, steps: seq<Step>, n: nat, run: RunId)
    requires n < |steps| < |states| && ClaimInv(states[n]) && Enabled(states[n], steps[n])
    requires states[n + 1] == Apply(states[n], steps[n]) && run in states[n + 1].runs
    requires run in states[n].runs ==> RowTells(states, steps, n, run, states[n].runs[run])
    ensures RowTells(states, steps, n + 1, run, states[n + 1].runs[run])
  {
    var s, step, r := states[n], steps[n], states[n + 1].runs[run];
    RunStep(s, step, run);
    if run in s.runs {
      StartStays(states, steps, n + 1, run, s.runs[run], r);
      if r == s.runs[run] {
        ExplainedStays(states, steps, n + 1, run, r);
      }
    } else {
      assert ClaimedAs(s, step, run, r.destination, r.startedAt);
    }
  }

  lemma ExplainedStays(states: seq<State>, steps: seq<Step>, n: nat, run: RunId, r: Run)
    requires 0 < n <= |steps| < |states| && Explained(states, steps, n - 1, run, r)
    ensures Explained(states, steps, n, run, r)
  {
    if !r.status.Running? {
      var i :| 0 <= i < n - 1 && (FinishedAs(states[i], steps[i], run, r) || SweptAs(states[i], steps[i], r));
    }
  }

  /**
   * Every run row in every reachable state: it was started by a claim of its destination, at
   * the time and for the reason it says. While it runs it says nothing more. It reads Succeeded
   * with a count only if its worker ended with that count, and Failed only if its worker ended
   * with the error it repeats or a sweep gave it up.
   */
  lemma {:induction false} RunRowsAreTrue(states: seq<State>, steps: seq<Step>, n: nat, run: RunId)
    requires Behaviour(states, steps) && n < |states| && run in states[n].runs
    ensures Started(states, steps, n, run, states[n].runs[run])
    ensures Explained(states, steps, n, run, states[n].runs[run])
  {
    if n > 0 {
      BehaviourKeepsClaims(states, steps, n - 1);
      if run in states[n - 1].runs {
        RunRowsAreTrue(states, steps, n - 1, run);
      }
      RowGoesOn(states, steps, n - 1, run);
    }
  }

  lemma StartStays(states: seq<State>, steps: seq<Step>, n: nat, run: RunId, a: Run, b: Run)
    requires 0 < n <= |steps| < |states| && Started(states, steps, n - 1, run, a) && SameStart(a, b)
    ensures Started(states, steps, n, run, b)
  {
    var i :| 0 <= i < n - 1
             && ClaimedAs(states[i], steps[i], run, a.destination, a.startedAt) && a.trigger == steps[i].trigger;
    assert ClaimedAs(states[i], steps[i], run, b.destination, b.startedAt);
  }

  // ------------------------------------------------------------------ the workers behind the rows

  /** The rows of the batch that a step advances a run over. */
  function AdvancedBy(s: State, step: Step, run: RunId): nat {
    if step == Advance(run) && run in s.workers && s.workers[run].phase.Delivered? then |s.workers[run].phase.batch|
    else 0
  }

  /** The rows of the batches a run has advanced over so far. */
  function Advanced(states: seq<State>, steps: seq<Step>, n: nat, run: RunId): nat
    requires n <= |steps| < |states|
  {
    if n == 0 then 0 else
    Advanced(states, steps, n - 1, run) + AdvancedBy(states[n - 1], steps[n - 1], run)
  }

  /** The job was claimed with this token, and with the interval the destination had then. */
  predicate JobOf(s: State, step: Step, run: RunId, w: Worker) {
    step.Claim? && step.run == run && step.d == w.destination && step.token == w.token && s.now == w.claimedAt
    && step.d in s.dests && s.dests[step.d].interval == w.interval
  }

  ghost predicate Hired(states: seq<State>, steps: seq<Step>, n: nat, run: RunId, w: Worker)
    requires n <= |steps| < |states|
  {
    exists i | 0 <= i < n :: JobOf(states[i], steps[i], run, w)
  }

  predicate BreaksWith(step: Step, run: RunId, error: string) {
    || step == Fail(run, error)
    || (step.DeliverInPart? && step.run == run && step.error == error)
    || (step == TimeOut(run) && error == "Sync exceeded the 480 second run limit")
  }

  ghost predicate Broke(steps: seq<Step>, n: nat, run: RunId, error: string)
    requires n <= |steps|
  {
    exists i | 0 <= i < n :: BreaksWith(steps[i], run, error)
  }

  predicate Tallies(phase: Phase, count: nat) {
    match phase
    case Claimed => count == 0
    case LoopHead(_, total) => count == total
    case CursorRead(_, total, _) => count == total
    case Fetched(_, total, _, _) => count == total
    case Delivered(_, total, _, _) => count == total
    case Ended(Exported(n)) => count == n
    case Ended(Broken(_)) => true
  }

  lemma AdvancedByIsIssued(s: State, step: Step, run: RunId)
    requires ClaimInv(s) && AdvancedBy(s, step, run) > 0
    ensures run in s.issued.Values
  {
    assert WorkerKnown(s, run);
  }

  /** A run that has advanced over anything was issued. */
  lemma {:induction false} AdvancedIsIssued(states: seq<State>, steps: seq<Step>, n: nat, run: RunId)
    requires Behaviour(states, steps) && n < |states| && Advanced(states, steps, n, run) > 0
    ensures run in states[n].issued.Values
  {
    if n > 0 {
      if Advanced(states, steps, n - 1, run) > 0 {
        AdvancedIsIssued(states, steps, n - 1, run);
      } else {
        BehaviourKeepsClaims(states, steps, n - 1);
        AdvancedByIsIssued(states[n - 1], steps[n - 1], run);
      }
      IssuedStays(states[n - 1], steps[n - 1], run);
    }
  }

  lemma NewRunHasAdvancedNothing(states: seq<State>, steps: seq<Step>, n: nat, run: RunId)
    requires Behaviour(states, steps) && n < |steps| && steps[n].Claim? && steps[n].run == run
    ensures Advanced(states, steps, n, run) == 0 && AdvancedBy(states[n], steps[n], run) == 0
  {
    if Advanced(states, steps, n, run) > 0 {
      AdvancedIsIssued(states, steps, n, run);
    }
  }

  predicate SameJob(a: Worker, b: Worker) {
    a.destination == b.destination && a.interval == b.interval && a.token == b.token && a.claimedAt == b.claimedAt
  }

  /** What one step does to a worker's job, its count and its error. */
  lemma WorkerStep(s: State, step: Step, run: RunId)
    requires Enabled(s, step) && run in Apply(s, step).workers
    ensures var w := Apply(s, step).workers[run];
            if step.Claim? && step.run == run then JobOf(s, step, run, w) && w.phase == Claimed
            else run in s.workers && SameJob(s.workers[run], w)
  {}

  lemma StepTallies(s: State, step: Step, run: RunId, count: nat)
    requires Enabled(s, step) && run in s.workers && run in Apply(s, step).workers
    requires !(step.Claim? && step.run == run) && Tallies(s.workers[run].phase, count)
    ensures Tallies(Apply(s, step).workers[run].phase, count + AdvancedBy(s, step, run))
  {}

  lemma StepBreaks(s: State, step: Step, run: RunId)
    requires Enabled(s, step) && run in Apply(s, step).workers
    ensures var phase := Apply(s, step).workers[run].phase;
            phase.Ended? && phase.outcome.Broken? ==>
              (run in s.workers && s.workers[run].phase == phase) || BreaksWith(step, run, phase.outcome.error)
  {}

  lemma StaysHired(states: seq<State>, steps: seq<Step>, n: nat, run: RunId, a: Worker, b: Worker)
    requires 0 < n <= |steps| < |states| && Hired(states, steps, n - 1, run, a) && SameJob(a, b)
    ensures Hired(states, steps, n, run, b)
    ensures forall error :: Broke(steps, n - 1, run, error) ==> Broke(steps, n, run, error)
    ensures forall error :: BreaksWith(steps[n - 1], run, error) ==> Broke(steps, n, run, error)
  {
    var i :| 0 <= i < n - 1 && JobOf(states[i], steps[i], run, a);
    assert JobOf(states[i], steps[i], run, b);
  }

  ghost predicate WorkerTells(states: seq<State>, steps: seq<Step>, n: nat, run: RunId, w: Worker)
    requires n <= |steps| < |states|
  {
    && Hired(states, steps, n, run, w) && Tallies(w.phase, Advanced(states, steps, n, run))
    && (w.phase.Ended? && w.phase.outcome.Broken? ==> Broke(steps, n, run, w.phase.outcome.error))
  }

  /** A worker that is new, or goes on. */
  lemma WorkerGoesOn(states: seq<State>, steps: seq<Step>, n: nat, run: RunId)
    requires n < |steps| < |states| && Enabled(states[n], steps[n])
    requires states[n + 1] == Apply(states[n], steps[n]) && run in states[n + 1].workers
    requires if steps[n].Claim? && steps[n].run == run
             then Advanced(states, steps, n, run) == 0 && AdvancedBy(states[n], steps[n], run) == 0
             else run in states[n].workers ==> WorkerTells(states, steps, n, run, states[n].workers[run])
    ensures WorkerTells(states, steps, n + 1, run, states[n + 1].workers[run])
  {
    var s, step, w := states[n], steps[n], states[n + 1].workers[run];
    WorkerStep(s, step, run);
    StepBreaks(s, step, run);
    if step.Claim? && step.run == run {
      assert JobOf(s, step, run, w);
    } else {
      StepTallies(s, step, run, Advanced(states, steps, n, run));
      StaysHired(states, steps, n + 1, run, s.workers[run], w);
    }
  }

  /**
   * Every worker in every reachable state: its job is the one its claim found; its count, and
   * the count it ended with, is the rows of the batches it advanced over; and an error it ended
   * with was a failed call's, a broken delivery's, or the run limit's.
   */
  lemma {:induction false} WorkersAreTrue(states: seq<State>, steps: seq<Step>, n: nat, run: RunId)
    requires Behaviour(states, steps) && n < |states| && run in states[n].workers
    ensures WorkerTells(states, steps, n, run, states[n].workers[run])
  {
    if n > 0 {
      if steps[n - 1].Claim? && steps[n - 1].run == run {
        NewRunHasAdvancedNothing(states, steps, n - 1, run);
      } else if run in states[n - 1].workers {
        WorkersAreTrue(states, steps, n - 1, run);
      }
      WorkerGoesOn(states, steps, n - 1, run);
    }
  }

  /** A finish at step `i` recorded the run, and with it the rows the run had advanced over. */
  ghost predicate RecordedAt(states: seq<State>, steps: seq<Step>, i: nat, run: RunId, r: Run)
    requires i < |steps| < |states|
  {
    FinishedAs(states[i], steps[i], run, r) && r.recordsExported == Advanced(states, steps, i, run)
  }

  lemma FinishOf(states: seq<State>, steps: seq<Step>, n: nat, run: RunId, r: Run) returns (i: nat)
    requires n <= |steps| < |states| && Explained(states, steps, n, run, r) && r.status.Succeeded?
    ensures i < n && FinishedAs(states[i], steps[i], run, r)
  {
    i :| 0 <= i < n && (FinishedAs(states[i], steps[i], run, r) || SweptAs(states[i], steps[i], r));
  }

  lemma FinishRecords(states: seq<State>, steps: seq<Step>, i: nat, run: RunId, r: Run)
    requires i < |steps| < |states| && FinishedAs(states[i], steps[i], run, r) && r.status.Succeeded?
    requires WorkerTells(states, steps, i, run, states[i].workers[run])
    ensures RecordedAt(states, steps, i, run, r)
  {}

  /** A run recorded as a success reports exactly the rows of the batches it advanced over. */
  lemma SucceededRunsCountTheirRows(states: seq<State>, steps: seq<Step>, n: nat, run: RunId) returns (i: nat)
    requires Behaviour(states, steps) && n < |states|
    requires run in states[n].runs && states[n].runs[run].status.Succeeded?
    ensures i < n && RecordedAt(states, steps, i, run, states[n].runs[run])
  {
    RunRowsAreTrue(states, steps, n, run);
    i := FinishOf(states, steps, n, run, states[n].runs[run]);
    WorkersAreTrue(states, steps, i, run);
    FinishRecords(states, steps, i, run, states[n].runs[run]);
  }

  // ------------------------------------------------------------------ the run limit

  /** The drain started 480 seconds before the worker's deadline. */
  predicate DrainOf(s: State, step: Step, run: RunId, w: Worker) {
    step == StartDrain(run) && w.deadline == s.now + 480
  }

  ghost predicate Drained(states: seq<State>, steps: seq<Step>, n: nat, run: RunId, w: Worker)
    requires n <= |steps| < |states|
  {
    exists i | 0 <= i < n :: DrainOf(states[i], steps[i], run, w)
  }

  lemma DeadlineStep(s: State, step: Step, run: RunId)
    requires Enabled(s, step) && run in Apply(s, step).workers && !Apply(s, step).workers[run].phase.Claimed?
    ensures var w := Apply(s, step).workers[run];
            DrainOf(s, step, run, w)
            || (run in s.workers && !s.workers[run].phase.Claimed? && s.workers[run].deadline == w.deadline)
  {}

  lemma {:induction false} DeadlinesAreTrue(states: seq<State>, steps: seq<Step>, n: nat, run: RunId)
    requires Behaviour(states, steps) && n < |states|
    requires run in states[n].workers && !states[n].workers[run].phase.Claimed?
    ensures Drained(states, steps, n, run, states[n].workers[run])
  {
    if n > 0 {
      DeadlineStep(states[n - 1], steps[n - 1], run);
      if !DrainOf(states[n - 1], steps[n - 1], run, states[n].workers[run]) {
        DeadlinesAreTrue(states, steps, n - 1, run);
        var i :| 0 <= i < n - 1 && DrainOf(states[i], steps[i], run, states[n - 1].workers[run]);
        assert DrainOf(states[i], steps[i], run, states[n].workers[run]);
      }
    }
  }

  /** A drain that started at least 480 seconds before. */
  predicate RanOut(s: State, step: Step, run: RunId, now: int) {
    step == StartDrain(run) && s.now + 480 <= now
  }

  /** A run is timed out only 480 seconds after its drain started. */
  lemma TimeOutsAreDue(states: seq<State>, steps: seq<Step>, n: nat, run: RunId)
    requires Behaviour(states, steps) && n < |steps| && steps[n] == TimeOut(run)
    ensures exists i | 0 <= i < n :: RanOut(states[i], steps[i], run, states[n].now)
  {
    DeadlinesAreTrue(states, steps, n, run);
    var i :| 0 <= i < n && DrainOf(states[i], steps[i], run, states[n].workers[run]);
    assert RanOut(states[i], steps[i], run, states[n].now);
  }
}
