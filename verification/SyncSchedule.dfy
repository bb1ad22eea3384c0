/** When a destination is due: what moves its next sync, and how far apart its scheduled syncs are. */
module SyncSchedule {
  import opened Basics
  import opened DestinationStore
  import opened ClaimProtocol

  /** Enabling a destination or changing its interval makes it due at once. */
  predicate MakesDue(step: Step, d: DestId) {
    step.Update? && step.d == d && (step.enabled == Some(true) || step.newInterval.Some?)
  }

  /** The holder of a destination's claim finishes. */
  predicate EndsSync(s: State, step: Step, d: DestId) {
    && step.Finish? && step.run in s.workers && s.workers[step.run].phase.Ended?
    && s.workers[step.run].destination == d && d in s.dests
    && s.dests[d].claimToken == Some(s.workers[step.run].token)
  }

  /** The interval after a success, five minutes after a failure. */
  function Pause(w: Worker): nat
    requires w.phase.Ended?
  {
    match w.phase.outcome
    case Exported(_) => w.interval
    case Broken(_) => 300
  }

  /**
   * A destination goes only when it is deleted. Its switch and its interval are what the last
   * update said; its next sync moves only with an update that makes it due, or with the end of
   * a sync, which puts it off by the job's interval or by five minutes.
   */
  lemma DestinationStep(s: State, step: Step, d: DestId)
    requires Enabled(s, step) && d in s.dests && d in s.configs
    ensures var t := Apply(s, step);
            && (d !in t.dests <==> step == Delete(d))
            && (d in t.dests ==>
              var a, b := s.dests[d], t.dests[d];
              && b.enabled
                 == (if step.Update? && step.d == d && step.enabled.Some? then step.enabled.value else a.enabled)
              && b.interval
                 == (if step.Update? && step.d == d && step.newInterval.Some? then step.newInterval.value
                     else a.interval)
              && b.nextSyncAt == (if MakesDue(step, d) then s.now
                                  else if EndsSync(s, step, d) then s.now + Pause(s.workers[step.run])
                                  else a.nextSyncAt))
  {}

  /** A new destination is enabled, unclaimed and due at once; only creating brings one about. */
  lemma NewDestinationIsDue(s: State, step: Step, d: DestId)
    requires Enabled(s, step) && d !in s.dests && d in Apply(s, step).dests
    ensures step.Create? && step.d == d && d !in s.configs
    ensures Apply(s, step).configs == s.configs[d := step.config]
    ensures Apply(s, step).dests[d] == Destination(true, step.interval, s.now, None, None)
  {}

  // ------------------------------------------------------------------ over all behaviours

  predicate Disturbs(s: State, step: Step, d: DestId) {
    MakesDue(step, d) || EndsSync(s, step, d)
  }

  /** Between two states nothing made the destination due and no sync of it ended. */
  ghost predicate Undisturbed(states: seq<State>, steps: seq<Step>, m: nat, n: nat, d: DestId)
    requires n <= |steps| < |states|
  {
    forall k | m <= k < n :: !Disturbs(states[k], steps[k], d)
  }

  /** What is configured stays configured, and is never created again. */
  lemma ConfiguredStays(s: State, step: Step, d: DestId)
    requires Enabled(s, step) && d in s.configs
    ensures d in Apply(s, step).configs && (d in Apply(s, step).dests ==> d in s.dests)
  {}

  /** If the destination is there afterwards, it was before, due at the same time. */
  predicate Keeps(s: State, t: State, d: DestId) {
    d in t.dests ==> d in s.dests && t.dests[d].nextSyncAt == s.dests[d].nextSyncAt
  }

  lemma NextSyncStep(s: State, step: Step, d: DestId)
    requires Enabled(s, step) && d in s.configs && !Disturbs(s, step, d)
    ensures Keeps(s, Apply(s, step), d)
  {
    ConfiguredStays(s, step, d);
    if d in s.dests {
      DestinationStep(s, step, d);
    }
  }

  lemma {:induction false} KeepsAlong(states: seq<State>, m: nat, n: nat, d: DestId)
    requires m <= n < |states| && forall k | m <= k < n :: Keeps(states[k], states[k + 1], d)
    ensures Keeps(states[m], states[n], d)
  {
    if m < n {
      KeepsAlong(states, m, n - 1, d);
    }
  }

  lemma {:induction false} StillThere(states: seq<State>, steps: seq<Step>, m: nat, n: nat, d: DestId)
    requires Behaviour(states, steps) && m <= n < |states| && d in states[m].dests
    ensures d in states[n].configs
  {
    if m == n {
      BehaviourKeepsClaims(states, steps, m);
    } else {
      StillThere(states, steps, m, n - 1, d);
      ConfiguredStays(states[n - 1], steps[n - 1], d);
    }
  }

  /**
   * A scheduled sync starts no earlier than the interval after the last sync succeeded, and no
   * earlier than five minutes after it failed, unless an update made the destination due.
   */
  lemma ScheduledSyncsKeepTheirDistance(states: seq<State>, steps: seq<Step>, m: nat, n: nat, d: DestId)
    requires Behaviour(states, steps) && m < n < |steps|
    requires EndsSync(states[m], steps[m], d) && Undisturbed(states, steps, m + 1, n, d)
    requires steps[n].Claim? && steps[n].d == d && steps[n].trigger.Scheduled?
    ensures states[n].dests[d].enabled
    ensures states[m].now + Pause(states[m].workers[steps[m].run]) <= states[n].now
  {
    BehaviourKeepsClaims(states, steps, m);
    DestinationStep(states[m], steps[m], d);
    forall k | m + 1 <= k < n ensures Keeps(states[k], states[k + 1], d) {
      StillThere(states, steps, m + 1, k, d);
      NextSyncStep(states[k], steps[k], d);
    }
    KeepsAlong(states, m + 1, n, d);
  }
}
