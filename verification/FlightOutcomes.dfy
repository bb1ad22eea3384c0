/**
 * Where everything in the coordinator comes from, over every behaviour: the outcomes callers
 * come back with, the flights they joined, the order they queue in, and the delayed cleanups.
 */
module FlightOutcomes {
  import opened Basics
  import opened RefreshCoordinator
  import opened SingleFlight

  // ------------------------------------------------------------------ what the POST answered

  /** A caller that was running the flight's POST got this answer. */
  predicate Answered(s: State, step: Step, f: FlightId, outcome: Outcome) {
    step.EndPost? && step.outcome == outcome && step.caller in s.callers && s.callers[step.caller] == Posting(f)
  }

  ghost predicate WasAnswered(states: seq<State>, steps: seq<Step>, n: nat, f: FlightId, outcome: Outcome)
    requires n <= |steps| < |states|
  {
    exists i | 0 <= i < n :: Answered(states[i], steps[i], f, outcome)
  }

  predicate HasResult(s: State, f: FlightId, outcome: Outcome) {
    f in s.table.flights && s.table.flights[f].result == Some(outcome)
  }

  lemma ResultStep(s: State, step: Step, f: FlightId, outcome: Outcome)
    requires TableInv(s.table) && CallersInv(s) && Enabled(s, step) && HasResult(Apply(s, step), f, outcome)
    ensures HasResult(s, f, outcome) || Answered(s, step, f, outcome)
  {
    if step.Call? {
      JoinOpens(s.table, step.key, step.at, s.now, step.newId);
    }
  }

  /** A flight's result is what its POST answered. */
  lemma {:induction false} ResultsAreAnswers(states: seq<State>, steps: seq<Step>, n: nat, f: FlightId,
      outcome: Outcome)
    requires Behaviour(states, steps) && n < |states| && HasResult(states[n], f, outcome)
    ensures WasAnswered(states, steps, n, f, outcome)
  {
    if n > 0 {
      BehaviourKeepsInv(states, steps, n - 1);
      ResultStep(states[n - 1], steps[n - 1], f, outcome);
      if HasResult(states[n - 1], f, outcome) {
        ResultsAreAnswers(states, steps, n - 1, f, outcome);
      }
    }
  }

  /** A caller comes back from a flight with exactly what the flight's POST answered. */
  lemma CallersReturnTheAnswer(states: seq<State>, steps: seq<Step>, n: nat, c: Caller)
    requires Behaviour(states, steps) && n < |states|
    requires c in states[n].callers && states[n].callers[c].Returned?
    ensures WasAnswered(states, steps, n, states[n].callers[c].flight, states[n].callers[c].outcome)
  {
    BehaviourKeepsInv(states, steps, n);
    ResultsAreAnswers(states, steps, n, states[n].callers[c].flight, states[n].callers[c].outcome);
  }

  // ------------------------------------------------------------------ which flight a caller is on

  /** The call that opened the flight. */
  predicate OpenedBy(s: State, step: Step, f: FlightId, flight: Flight) {
    step.Call? && step.newId == f && step.key == flight.key && step.at == flight.startedAt && s.now == flight.openedAt
  }

  ghost predicate WasOpened(states: seq<State>, steps: seq<Step>, n: nat, f: FlightId, flight: Flight)
    requires n <= |steps| < |states|
  {
    exists i | 0 <= i < n :: OpenedBy(states[i], steps[i], f, flight)
  }

  predicate SameCell(a: Flight, b: Flight) {
    a.key == b.key && a.startedAt == b.startedAt && a.openedAt == b.openedAt
  }

  lemma CallOpensFlight(s: State, step: Step, f: FlightId)
    requires TableInv(s.table) && step.Call? && Enabled(s, step) && f in Apply(s, step).table.flights
    ensures var flight := Apply(s, step).table.flights[f];
            if f in s.table.flights then SameCell(s.table.flights[f], flight)
            else OpenedBy(s, step, f, flight) && flight.result.None?
  {
    JoinOpens(s.table, step.key, step.at, s.now, step.newId);
  }

  lemma FlightStep(s: State, step: Step, f: FlightId)
    requires TableInv(s.table) && Enabled(s, step) && f in Apply(s, step).table.flights
    ensures var flight := Apply(s, step).table.flights[f];
            if f in s.table.flights then SameCell(s.table.flights[f], flight)
            else OpenedBy(s, step, f, flight) && flight.result.None?
  {
    if step.Call? {
      CallOpensFlight(s, step, f);
    }
  }

  /** A flight is filed under the token, and started at the time, of the call that opened it. */
  lemma {:induction false} FlightsAreOpened(states: seq<State>, steps: seq<Step>, n: nat, f: FlightId)
    requires Behaviour(states, steps) && n < |states| && f in states[n].table.flights
    ensures WasOpened(states, steps, n, f, states[n].table.flights[f])
  {
    if n > 0 {
      BehaviourKeepsInv(states, steps, n - 1);
      FlightStep(states[n - 1], steps[n - 1], f);
      var flight := states[n].table.flights[f];
      if f in states[n - 1].table.flights {
        FlightsAreOpened(states, steps, n - 1, f);
        var i :| 0 <= i < n - 1 && OpenedBy(states[i], steps[i], f, states[n - 1].table.flights[f]);
        assert OpenedBy(states[i], steps[i], f, flight);
      } else {
        assert OpenedBy(states[n - 1], steps[n - 1], f, flight);
      }
    }
  }

  ghost predicate Called(steps: seq<Step>, n: nat, c: Caller, key: Token)
    requires n <= |steps|
  {
    exists i | 0 <= i < n :: steps[i].Call? && steps[i].caller == c && steps[i].key == key
  }

  /** A caller is on a flight of a token it called for, at every moment until it comes back. */
  lemma {:induction false} CallersAreOnTheirToken(states: seq<State>, steps: seq<Step>, n: nat, c: Caller)
    requires Behaviour(states, steps) && n < |states| && c in states[n].callers && !states[n].callers[c].Rejected?
    ensures states[n].callers[c].flight in states[n].table.flights
    ensures Called(steps, n, c, states[n].table.flights[states[n].callers[c].flight].key)
  {
    if n > 0 {
      var s, step := states[n - 1], steps[n - 1];
      BehaviourKeepsInv(states, steps, n - 1);
      CallerStep(s, step, c);
      if !(step.Call? && step.caller == c) {
        CallersAreOnTheirToken(states, steps, n - 1, c);
        FlightStep(s, step, states[n].callers[c].flight);
      }
    }
  }

  lemma CallerStep(s: State, step: Step, c: Caller)
    requires TableInv(s.table) && CallersInv(s) && Enabled(s, step)
    requires c in Apply(s, step).callers && !Apply(s, step).callers[c].Rejected?
    ensures var t := Apply(s, step);
            && t.callers[c].flight in t.table.flights
            && if step.Call? && step.caller == c then t.table.flights[t.callers[c].flight].key == step.key
            else c in s.callers && !s.callers[c].Rejected? && s.callers[c].flight == t.callers[c].flight
  {
    if step.Call? {
      JoinKeepsTable(s.table, step.key, step.at, s.now, step.newId);
    }
  }

  // ------------------------------------------------------------------ the eviction queue

  /** Flights stand in the queue in the order they were opened. */
  ghost predicate Ascends(order: seq<Token>, entries: map<Token, FlightId>) {
    forall i, j | 0 <= i < j < |order| && order[i] in entries && order[j] in entries ::
      entries[order[i]] < entries[order[j]]
  }

  lemma {:induction false} RetainAscends(order: seq<Token>, keys: set<Token>, entries: map<Token, FlightId>)
    requires Ascends(order, entries)
    ensures Ascends(Retain(order, keys), entries)
  {
    if order != [] {
      var rest := Retain(order[1..], keys);
      RetainAscends(order[1..], keys, entries);
      RetainKeeps(order[1..], keys);
      forall j | 0 <= j < |rest| && rest[j] in entries && order[0] in entries
        ensures entries[order[0]] < entries[rest[j]]
      {
        assert rest[j] in order[1..];
      }
    }
  }

  ghost predicate QueueInv(t: Table) {
    Ascends(t.order, t.entries)
  }

  lemma PruneAscends(t: Table, at: int)
    requires QueueInv(t)
    ensures QueueInv(Prune(t, at))
  {
    RetainAscends(t.order, Prune(t, at).entries.Keys, t.entries);
  }

  lemma RemoveAscends(t: Table, key: Token)
    requires QueueInv(t)
    ensures QueueInv(Remove(t, key))
  {
    RetainAscends(t.order, (set k | k in t.order) - {key}, t.entries);
  }

  lemma {:induction false} MakeRoomAscends(t: Table)
    requires QueueInv(t)
    ensures QueueInv(MakeRoom(t))
    decreases |t.entries|
  {
    var key := FirstSettled(t, t.order);
    FirstSettledIsFirst(t, t.order);
    if MAX_RESULTS <= |t.entries| && key.Some? {
      RemoveAscends(t, key.value);
      RemoveShrinks(t.entries, key.value);
      MakeRoomAscends(Remove(t, key.value));
    }
  }

  lemma OpenAscends(t: Table, key: Token, at: int, now: int, newId: FlightId)
    requires TableInv(t) && QueueInv(t) && key !in t.entries && forall f | f in t.flights :: f < newId
    ensures QueueInv(Open(t, key, at, now, newId))
  {
    var u := Open(t, key, at, now, newId);
    forall i, j | 0 <= i < j < |u.order| && u.order[i] in u.entries && u.order[j] in u.entries
      ensures u.entries[u.order[i]] < u.entries[u.order[j]]
    {
      assert t.order[i] in t.entries;
    }
  }

  lemma JoinAscends(t: Table, key: Token, at: int, now: int, newId: FlightId)
    requires TableInv(t) && QueueInv(t) && forall f | f in t.flights :: f < newId
    ensures QueueInv(Join(t, key, at, now, newId).0)
  {
    var pruned := Prune(t, at);
    PruneKeepsTable(t, at);
    PruneAscends(t, at);
    if key !in pruned.entries {
      MakeRoomEvictsSettled(pruned);
      MakeRoomAscends(pruned);
      if |MakeRoom(pruned).entries| < MAX_RESULTS {
        OpenAscends(MakeRoom(pruned), key, at, now, newId);
      }
    }
  }

  lemma StepAscends(s: State, step: Step)
    requires TableInv(s.table) && QueueInv(s.table) && Enabled(s, step)
    ensures QueueInv(Apply(s, step).table)
  {
    match step
    case Call(_, key, at, newId) => JoinAscends(s.table, key, at, s.now, newId);
    case RunCleanup(task) => RemoveAscends(s.table, task.key);
    case _ =>
  }

  /** In every reachable state the queue lists the entered flights in the order they were opened. */
  lemma {:induction false} QueueIsInOrder(states: seq<State>, steps: seq<Step>, n: nat)
    requires Behaviour(states, steps) && n < |states|
    ensures var t := states[n].table;
            && (forall k | k in t.order :: k in t.entries)
            && forall i, j | 0 <= i < j < |t.order| :: t.entries[t.order[i]] < t.entries[t.order[j]]
  {
    QueueStaysInOrder(states, steps, n);
    BehaviourKeepsInv(states, steps, n);
  }

  lemma {:induction false} QueueStaysInOrder(states: seq<State>, steps: seq<Step>, n: nat)
    requires Behaviour(states, steps) && n < |states|
    ensures QueueInv(states[n].table)
  {
    if n > 0 {
      QueueStaysInOrder(states, steps, n - 1);
      BehaviourKeepsInv(states, steps, n - 1);
      StepAscends(states[n - 1], steps[n - 1]);
    }
  }

  // ------------------------------------------------------------------ delayed cleanups

  /** A caller comes back from a flight and leaves a cleanup of it, due a minute later. */
  predicate Schedules(s: State, step: Step, task: CleanupTask) {
    && step.Return? && step.caller in s.callers && s.callers[step.caller] == Waiting(task.flight)
    && task.flight in s.table.flights && s.table.flights[task.flight].key == task.key && task.due == s.now + 60
  }

  ghost predicate WasScheduled(states: seq<State>, steps: seq<Step>, n: nat, task: CleanupTask)
    requires n <= |steps| < |states|
  {
    exists i | 0 <= i < n :: Schedules(states[i], steps[i], task)
  }

  predicate Scheduled(s: State, f: FlightId) {
    f in s.table.flights && s.table.flights[f].cleanupScheduled
  }

  /** One cleanup at most for each flight, and none before its first return. */
  ghost predicate TasksInv(s: State) {
    && (forall task | task in s.cleanups :: Scheduled(s, task.flight))
    && (forall a, b | a in s.cleanups && b in s.cleanups && a.flight == b.flight :: a == b)
    && (forall c | c in s.callers && s.callers[c].Returned? :: Scheduled(s, s.callers[c].flight))
  }

  lemma CallKeepsTasks(s: State, step: Step)
    requires TableInv(s.table) && TasksInv(s) && step.Call? && Enabled(s, step)
    ensures TasksInv(Apply(s, step))
    ensures forall f :: Scheduled(Apply(s, step), f) <==> Scheduled(s, f)
  {
    JoinOpens(s.table, step.key, step.at, s.now, step.newId);
    var t := Apply(s, step);
    assert forall f :: Scheduled(t, f) <==> Scheduled(s, f);
  }

  /** What a step does to the list of cleanups. */
  ghost predicate TasksMove(s: State, step: Step, t: State) {
    && TasksInv(t)
    && (forall task | task in s.cleanups && step != RunCleanup(task) :: task in t.cleanups)
    && (forall task | task in t.cleanups && task !in s.cleanups :: Schedules(s, step, task))
    && (forall f | Scheduled(t, f) && !Scheduled(s, f) :: GetsTask(s, step, t, f))
  }

  predicate GetsTask(s: State, step: Step, t: State, f: FlightId) {
    f in s.table.flights
    && var task := CleanupTask(s.table.flights[f].key, f, s.now + 60);
    task in t.cleanups && Schedules(s, step, task)
  }

  lemma ReturnMovesTasks(s: State, c: Caller)
    requires TasksInv(s) && Enabled(s, Return(c))
    ensures TasksMove(s, Return(c), Apply(s, Return(c)))
  {
    var t, f := Apply(s, Return(c)), s.callers[c].flight;
    assert forall g :: Scheduled(t, g) <==> Scheduled(s, g) || g == f;
  }

  /** A cleanup leaves the list only when it runs; a flight gets its cleanup with its first return. */
  lemma TaskStep(s: State, step: Step)
    requires TableInv(s.table) && TasksInv(s) && Enabled(s, step)
    ensures TasksMove(s, step, Apply(s, step))
  {
    if step.Call? {
      CallKeepsTasks(s, step);
    } else if step.Return? {
      ReturnMovesTasks(s, step.caller);
    } else {
      assert forall f :: Scheduled(Apply(s, step), f) <==> Scheduled(s, f);
    }
  }

  lemma {:induction false} BehaviourKeepsTasks(states: seq<State>, steps: seq<Step>, n: nat)
    requires Behaviour(states, steps) && n < |states|
    ensures TasksInv(states[n])
  {
    if n > 0 {
      BehaviourKeepsTasks(states, steps, n - 1);
      BehaviourKeepsInv(states, steps, n - 1);
      TaskStep(states[n - 1], steps[n - 1]);
    }
  }

  ghost predicate HasRun(steps: seq<Step>, n: nat, task: CleanupTask)
    requires n <= |steps|
  {
    exists i | 0 <= i < n :: steps[i] == RunCleanup(task)
  }

  /** The flight's cleanup was scheduled, and still waits or has run. */
  ghost predicate TaskOf(states: seq<State>, steps: seq<Step>, n: nat, f: FlightId, task: CleanupTask)
    requires n <= |steps| < |states|
  {
    && task.flight == f && WasScheduled(states, steps, n, task)
    && (task in states[n].cleanups || HasRun(steps, n, task))
  }

  lemma TaskStays(states: seq<State>, steps: seq<Step>, n: nat, f: FlightId, task: CleanupTask)
    requires Behaviour(states, steps) && n < |steps| && TaskOf(states, steps, n, f, task)
    ensures TaskOf(states, steps, n + 1, f, task)
  {
    BehaviourKeepsTasks(states, steps, n);
    BehaviourKeepsInv(states, steps, n);
    TaskStep(states[n], steps[n]);
  }

  lemma NowHasTask(states: seq<State>, steps: seq<Step>, n: nat, f: FlightId) returns (task: CleanupTask)
    requires Behaviour(states, steps) && n < |steps| && Scheduled(states[n + 1], f) && !Scheduled(states[n], f)
    ensures TaskOf(states, steps, n + 1, f, task)
  {
    var s := states[n];
    BehaviourKeepsTasks(states, steps, n);
    BehaviourKeepsInv(states, steps, n);
    TaskStep(s, steps[n]);
    assert GetsTask(s, steps[n], states[n + 1], f);
    task := CleanupTask(s.table.flights[f].key, f, s.now + 60);
    assert Schedules(states[n], steps[n], task);
  }

  lemma {:induction false} TaskStaysUntil(states: seq<State>, steps: seq<Step>, m: nat, n: nat, f: FlightId,
      task: CleanupTask)
    requires Behaviour(states, steps) && m <= n <= |steps| && TaskOf(states, steps, m, f, task)
    ensures TaskOf(states, steps, n, f, task)
  {
    if m < n {
      TaskStaysUntil(states, steps, m, n - 1, f, task);
      TaskStays(states, steps, n - 1, f, task);
    }
  }

  /** The step at which a flight came to have its cleanup. */
  lemma {:induction false} FirstScheduled(states: seq<State>, n: nat, f: FlightId) returns (k: nat)
    requires n < |states| && !Scheduled(states[0], f) && Scheduled(states[n], f)
    ensures k < n && !Scheduled(states[k], f) && Scheduled(states[k + 1], f)
  {
    if Scheduled(states[n - 1], f) {
      k := FirstScheduled(states, n - 1, f);
    } else {
      k := n - 1;
    }
  }

  /**
   * The first caller back from a flight leaves its cleanup, due 60 seconds later, which waits
   * or has run; there are never two for one flight.
   */
  lemma EveryReturnIsCleanedUp(states: seq<State>, steps: seq<Step>, n: nat, c: Caller) returns (task: CleanupTask)
    requires Behaviour(states, steps) && n < |states|
    requires c in states[n].callers && states[n].callers[c].Returned?
    ensures TaskOf(states, steps, n, states[n].callers[c].flight, task)
    ensures forall a, b | a in states[n].cleanups && b in states[n].cleanups && a.flight == b.flight :: a == b
  {
    var f := states[n].callers[c].flight;
    BehaviourKeepsTasks(states, steps, n);
    var k := FirstScheduled(states, n, f);
    task := NowHasTask(states, steps, k, f);
    TaskStaysUntil(states, steps, k + 1, n, f, task);
  }

  /** A cleanup waits in the list until it runs, which it may from when it is due; then its flight is out. */
  lemma CleanupsRunOnce(states: seq<State>, steps: seq<Step>, n: nat, task: CleanupTask)
    requires Behaviour(states, steps) && n < |steps| && task in states[n].cleanups
    ensures if steps[n] == RunCleanup(task)
            then task !in states[n + 1].cleanups && task.due <= states[n].now
                 && !Entered(states[n + 1].table, task.flight)
            else task in states[n + 1].cleanups
  {
    BehaviourKeepsTasks(states, steps, n);
    BehaviourKeepsInv(states, steps, n);
    TaskStep(states[n], steps[n]);
  }
}
