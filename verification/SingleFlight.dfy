/**
 * Concurrent callers of the refresh-token exchange. Each locked section, each start or end
 * of a POST, each return, cancellation and delayed cleanup is one step, in any order.
 */
module SingleFlight {
  import opened Basics
  import opened RefreshCoordinator

  /** What a caller is doing: waiting on a flight, running its POST, or back with a result. */
  datatype Progress =
    | Waiting(flight: FlightId)
    | Posting(flight: FlightId)
    | Returned(flight: FlightId, outcome: Outcome)
    | Rejected

  datatype CleanupTask = CleanupTask(key: Token, flight: FlightId, due: int)

  /** `posts`, `evicted` and `cancelled` are history. */
  datatype State = State(
    now: int, table: Table, callers: map<Caller, Progress>, cleanups: set<CleanupTask>,
    posts: map<FlightId, nat>, evicted: set<FlightId>, cancelled: set<FlightId>)

  datatype Step =
    | Tick(seconds: nat)
    | Call(caller: Caller, key: Token, at: int, newId: FlightId)
    | BeginPost(caller: Caller)
    | EndPost(caller: Caller, outcome: Outcome)
    | Return(caller: Caller)
    | Cancel(caller: Caller)
    | RunCleanup(task: CleanupTask)

  predicate IsWaiting(s: State, c: Caller) {
    c in s.callers && s.callers[c].Waiting? && s.callers[c].flight in s.table.flights
  }

  predicate IsPosting(s: State, c: Caller) {
    c in s.callers && s.callers[c].Posting? && s.callers[c].flight in s.table.flights
  }

  /** The cell admits one initialiser at a time, and only while it is empty; flight ids are handed out in order. */
  predicate Enabled(s: State, step: Step) {
    match step
    case Tick(_) => true
    case Call(c, _, at, newId) => c !in s.callers && at <= s.now && forall f | f in s.table.flights :: f < newId
    case BeginPost(c) => IsWaiting(s, c) && s.table.flights[s.callers[c].flight].result.None?
      && s.table.flights[s.callers[c].flight].poster.None?
    case EndPost(c, _) => IsPosting(s, c)
    case Return(c) => IsWaiting(s, c) && s.table.flights[s.callers[c].flight].result.Some?
    case Cancel(c) => IsWaiting(s, c) || IsPosting(s, c)
    case RunCleanup(task) => task in s.cleanups && task.due <= s.now
  }

  function WithFlight(s: State, f: FlightId, flight: Flight): State {
    s.(table := s.table.(flights := s.table.flights[f := flight]))
  }

  /** Entries that a full table gave up to make room. */
  function Evicted(t: Table, at: int, key: Token): set<FlightId> {
    var pruned := Prune(t, at);
    if key in pruned.entries then {}
    else set k | k in pruned.entries && k !in MakeRoom(pruned).entries :: pruned.entries[k]
  }

  function ApplyCall(s: State, c: Caller, key: Token, at: int, newId: FlightId): State {
    var (table, flight) := Join(s.table, key, at, s.now, newId);
    s.(table := table, evicted := s.evicted + Evicted(s.table, at, key),
       posts := if flight == Some(newId) then s.posts[newId := 0] else s.posts,
       callers := s.callers[c := if flight.Some? then Waiting(flight.value) else Rejected])
  }

  function Apply(s: State, step: Step): State
    requires Enabled(s, step)
  {
    match step
    case Tick(seconds) => s.(now := s.now + seconds)
    case Call(c, key, at, newId) => ApplyCall(s, c, key, at, newId)
    case BeginPost(c) =>
      var f := s.callers[c].flight;
      WithFlight(s, f, s.table.flights[f].(poster := Some(c)))
        .(callers := s.callers[c := Posting(f)], posts := s.posts[f := (if f in s.posts then s.posts[f] else 0) + 1])
    case EndPost(c, outcome) =>
      var f := s.callers[c].flight;
      WithFlight(s, f, s.table.flights[f].(poster := None, result := Some(outcome)))
        .(callers := s.callers[c := Waiting(f)])
    case Return(c) =>
      var f := s.callers[c].flight;
      var flight := s.table.flights[f];
      WithFlight(s, f, flight.(cleanupScheduled := true))
        .(callers := s.callers[c := Returned(f, flight.result.value)],
          cleanups := if flight.cleanupScheduled then s.cleanups
                      else s.cleanups + {CleanupTask(flight.key, f, s.now + RESULT_TTL)})
    case Cancel(c) =>
      var f := s.callers[c].flight;
      if s.callers[c].Posting?
      then
        WithFlight(s, f, s.table.flights[f].(poster := None))
          .(callers := s.callers - {c}, cancelled := s.cancelled + {f})
      else s.(callers := s.callers - {c})
    case RunCleanup(task) => s.(table := CleanUp(s.table, task.key, task.flight), cleanups := s.cleanups - {task})
  }

  predicate Initial(s: State) {
    && s.table == Table(map[], [], map[]) && s.callers == map[] && s.cleanups == {}
    && s.posts == map[] && s.evicted == {} && s.cancelled == {}
  }

  ghost predicate Behaviour(states: seq<State>, steps: seq<Step>) {
    && |states| == |steps| + 1
    && Initial(states[0])
    && forall i | 0 <= i < |steps| :: Enabled(states[i], steps[i]) && states[i + 1] == Apply(states[i], steps[i])
  }

  // ------------------------------------------------------------------ invariants

  ghost predicate CallersInv(s: State) {
    && (forall c | c in s.callers && !s.callers[c].Rejected? :: s.callers[c].flight in s.table.flights)
    && (forall c | c in s.callers && s.callers[c].Posting? ::
          s.table.flights[s.callers[c].flight].result.None? && s.table.flights[s.callers[c].flight].poster == Some(c))
    && (forall c | c in s.callers && s.callers[c].Returned? ::
          s.table.flights[s.callers[c].flight].result == Some(s.callers[c].outcome))
    && (forall f | f in s.table.flights && s.table.flights[f].poster.Some? ::
          s.table.flights[f].result.None? && s.table.flights[f].poster.value in s.callers
          && s.callers[s.table.flights[f].poster.value] == Posting(f))
  }

  /** Flights start at or before they open; cleanups wait out the whole result lifetime. */
  ghost predicate TimesInv(s: State) {
    && (forall f | f in s.table.flights :: s.table.flights[f].startedAt <= s.table.flights[f].openedAt <= s.now)
    && (forall task | task in s.cleanups ::
          Settled(s.table, task.flight) && s.table.flights[task.flight].key == task.key
          && s.table.flights[task.flight].startedAt + RESULT_TTL <= task.due)
  }

  /** A POST has begun on a flight exactly when it is running or done, unless one was cancelled. */
  ghost predicate PostsInv(s: State) {
    && (forall f | f in s.posts :: f in s.table.flights)
    && forall f | f in s.table.flights && f !in s.cancelled ::
         f in s.posts && s.posts[f] == if s.table.flights[f].poster.Some? || s.table.flights[f].result.Some? then 1
             else 0
  }

  /** A flight that was not evicted stays entered for the lifetime of its result. */
  ghost predicate FreshInv(s: State) {
    forall f | f in s.table.flights && f !in s.evicted && s.now < s.table.flights[f].startedAt + RESULT_TTL ::
      Entered(s.table, f)
  }

  /** Of two flights of one token that were not evicted, the later opens after the earlier one's lifetime. */
  ghost predicate ApartInv(s: State) {
    forall f, g | f in s.table.flights && g in s.table.flights && f < g && f !in s.evicted && g !in s.evicted
      && s.table.flights[f].key == s.table.flights[g].key ::
        s.table.flights[f].startedAt + RESULT_TTL <= s.table.flights[g].openedAt
  }

  // ------------------------------------------------------------------ steps that change one flight's cell

  /** Changing a cell's progress, but neither its token, its times nor a settled result. */
  predicate CellMoves(a: Flight, b: Flight) {
    b.key == a.key && b.startedAt == a.startedAt && b.openedAt == a.openedAt
        && (a.result.Some? ==> b.result == a.result)
  }

  lemma CellKeepsTable(t: Table, f: FlightId, b: Flight)
    requires TableInv(t) && f in t.flights && CellMoves(t.flights[f], b)
    ensures var u := t.(flights := t.flights[f := b]);
            TableInv(u) && (forall g :: Entered(u, g) <==> Entered(t, g)) && (forall g | Settled(t, g) :: Settled(u, g))
  {}

  ghost predicate TableAndTimes(s: State) {
    TableInv(s.table) && TimesInv(s) && FreshInv(s) && ApartInv(s)
  }

  lemma CellKeepsFresh(s: State, t: State, f: FlightId, b: Flight)
    requires TableInv(s.table) && FreshInv(s) && f in s.table.flights && CellMoves(s.table.flights[f], b)
    requires t.table == s.table.(flights := s.table.flights[f := b]) && t.now == s.now && t.evicted == s.evicted
    ensures FreshInv(t)
  {
    forall g | g in t.table.flights && g !in t.evicted && t.now < t.table.flights[g].startedAt + RESULT_TTL
      ensures Entered(t.table, g) {
      assert Entered(s.table, g);
    }
  }

  lemma CellKeepsApart(s: State, t: State, f: FlightId, b: Flight)
    requires ApartInv(s) && f in s.table.flights && CellMoves(s.table.flights[f], b)
    requires t.table.flights == s.table.flights[f := b] && t.evicted == s.evicted
    ensures ApartInv(t)
  {}

  lemma CellKeepsTasks(s: State, t: State, f: FlightId, b: Flight)
    requires TimesInv(s) && f in s.table.flights && CellMoves(s.table.flights[f], b)
    requires t.table.flights == s.table.flights[f := b] && t.now == s.now
    requires t.cleanups == s.cleanups
             || (b.result.Some? && t.cleanups == s.cleanups + {CleanupTask(b.key, f, s.now + RESULT_TTL)})
    ensures TimesInv(t)
  {
    forall task | task in t.cleanups && task in s.cleanups ensures Settled(t.table, task.flight) {
      assert Settled(s.table, task.flight);
    }
  }

  lemma CellKeepsTimes(s: State, t: State, f: FlightId, b: Flight)
    requires TableAndTimes(s) && f in s.table.flights && CellMoves(s.table.flights[f], b)
    requires t.table == s.table.(flights := s.table.flights[f := b]) && t.now == s.now && t.evicted == s.evicted
    requires t.cleanups == s.cleanups
             || (b.result.Some? && t.cleanups == s.cleanups + {CleanupTask(b.key, f, s.now + RESULT_TTL)})
    ensures TableAndTimes(t)
  {
    CellKeepsTable(s.table, f, b);
    CellKeepsFresh(s, t, f, b);
    CellKeepsApart(s, t, f, b);
    CellKeepsTasks(s, t, f, b);
  }

  predicate CellStep(step: Step) {
    step.BeginPost? || step.EndPost? || step.Return? || step.Cancel?
  }

  lemma CellStepKeepsTimes(s: State, step: Step)
    requires TableAndTimes(s) && CallersInv(s) && CellStep(step) && Enabled(s, step)
    ensures TableAndTimes(Apply(s, step))
  {
    var t, f := Apply(s, step), s.callers[step.caller].flight;
    if !step.Cancel? || s.callers[step.caller].Posting? {
      CellKeepsTimes(s, t, f, t.table.flights[f]);
    }
  }

  ghost predicate CallersAndPosts(s: State) {
    CallersInv(s) && PostsInv(s)
  }

  lemma BeginPostKeepsCallers(s: State, c: Caller)
    requires CallersAndPosts(s) && Enabled(s, BeginPost(c))
    ensures CallersAndPosts(Apply(s, BeginPost(c)))
  {}

  lemma EndPostKeepsCallers(s: State, c: Caller, outcome: Outcome)
    requires CallersAndPosts(s) && Enabled(s, EndPost(c, outcome))
    ensures CallersAndPosts(Apply(s, EndPost(c, outcome)))
  {}

  lemma ReturnKeepsCallers(s: State, c: Caller)
    requires CallersAndPosts(s) && Enabled(s, Return(c))
    ensures CallersAndPosts(Apply(s, Return(c)))
  {}

  lemma CancelKeepsCallers(s: State, c: Caller)
    requires CallersAndPosts(s) && Enabled(s, Cancel(c))
    ensures CallersAndPosts(Apply(s, Cancel(c)))
  {}

  // ------------------------------------------------------------------ steps that change the table

  lemma CleanupKeepsTimes(s: State, task: CleanupTask)
    requires TableAndTimes(s) && Enabled(s, RunCleanup(task))
    ensures TableAndTimes(Apply(s, RunCleanup(task)))
  {
    CleanUpKeepsOthers(s.table, task.key, task.flight);
  }

  /** A caller that joins an existing flight, opens a new one, or is turned away. */
  lemma NewCallerKeepsCallers(s: State, t: State, c: Caller, added: Option<FlightId>)
    requires CallersAndPosts(s) && c !in s.callers
    requires added.Some? ==> (
               && added.value !in s.table.flights && added.value in t.table.flights
               && t.table.flights[added.value].result.None? && t.table.flights[added.value].poster.None?)
    requires forall f | f in t.table.flights ::
             added == Some(f) || (f in s.table.flights && t.table.flights[f] == s.table.flights[f])
    requires forall f | f in s.table.flights :: f in t.table.flights
    requires c in t.callers && t.callers == s.callers[c := t.callers[c]]
    requires t.callers[c].Rejected? || (t.callers[c].Waiting? && t.callers[c].flight in t.table.flights)
    requires t.cancelled == s.cancelled && t.posts == if added.Some? then s.posts[added.value := 0] else s.posts
    ensures CallersAndPosts(t)
  {}

  /** The locked section changes no cell: it only opens a new one. */
  lemma CallKeepsCallers(s: State, c: Caller, key: Token, at: int, newId: FlightId)
    requires CallersAndPosts(s) && TableInv(s.table) && Enabled(s, Call(c, key, at, newId))
    ensures CallersAndPosts(Apply(s, Call(c, key, at, newId)))
  {
    JoinOpens(s.table, key, at, s.now, newId);
    var flight := Join(s.table, key, at, s.now, newId).1;
    NewCallerKeepsCallers(s, Apply(s, Call(c, key, at, newId)), c, if flight == Some(newId) then flight else None);
  }

  lemma JoinOpens(t: Table, key: Token, at: int, now: int, newId: FlightId)
    requires TableInv(t) && newId !in t.flights
    ensures var (u, flight) := Join(t, key, at, now, newId);
            && u.flights
               == (if flight == Some(newId) then t.flights[newId := Flight(key, at, now, None, false, None)]
                   else t.flights)
            && (flight.Some? ==> flight.value in u.flights)
  {
    PruneKeepsTable(t, at);
    var pruned := Prune(t, at);
    MakeRoomEvictsSettled(pruned);
  }

  /** A flight still within its lifetime leaves the table only by eviction. */
  lemma JoinKeepsFresh(t: Table, key: Token, at: int, now: int, newId: FlightId, f: FlightId)
    requires TableInv(t) && newId !in t.flights && Entered(t, f)
    requires at <= now < t.flights[f].startedAt + RESULT_TTL
    requires f !in Evicted(t, at, key)
    ensures Entered(Join(t, key, at, now, newId).0, f)
    ensures t.flights[f].key == key ==> Join(t, key, at, now, newId).1 == Some(f)
  {
    PruneKeepsTable(t, at);
    var pruned := Prune(t, at);
    assert Entered(pruned, f);
    if key !in pruned.entries {
      MakeRoomEvictsSettled(pruned);
      var k := t.flights[f].key;
      assert k in pruned.entries && pruned.entries[k] == f;
    }
  }

  lemma CallKeepsFresh(s: State, c: Caller, key: Token, at: int, newId: FlightId)
    requires TableAndTimes(s) && Enabled(s, Call(c, key, at, newId))
    ensures FreshInv(Apply(s, Call(c, key, at, newId)))
  {
    var t := Apply(s, Call(c, key, at, newId));
    JoinKeepsTable(s.table, key, at, s.now, newId);
    JoinOpens(s.table, key, at, s.now, newId);
    forall f | f in t.table.flights && f !in t.evicted && t.now < t.table.flights[f].startedAt + RESULT_TTL
      ensures Entered(t.table, f) {
      if f in s.table.flights {
        assert Entered(s.table, f);
        JoinKeepsFresh(s.table, key, at, s.now, newId, f);
      }
    }
  }

  lemma CallKeepsApart(s: State, c: Caller, key: Token, at: int, newId: FlightId)
    requires TableAndTimes(s) && Enabled(s, Call(c, key, at, newId))
    ensures ApartInv(Apply(s, Call(c, key, at, newId)))
  {
    var t := Apply(s, Call(c, key, at, newId));
    JoinOpens(s.table, key, at, s.now, newId);
    forall f, g | f in t.table.flights && g in t.table.flights && f < g && f !in t.evicted && g !in t.evicted
        && t.table.flights[f].key == t.table.flights[g].key
      ensures t.table.flights[f].startedAt + RESULT_TTL <= t.table.flights[g].openedAt
    {
      if g !in s.table.flights {
        OpenedApart(s, key, at, newId, f);
      }
    }
  }

  /** A new flight opens only after every unevicted older one of its token has outlived its result. */
  lemma OpenedApart(s: State, key: Token, at: int, newId: FlightId, f: FlightId)
    requires TableAndTimes(s) && newId !in s.table.flights && at <= s.now
    requires f in s.table.flights && s.table.flights[f].key == key
    requires f !in s.evicted && f !in Evicted(s.table, at, key)
    requires Join(s.table, key, at, s.now, newId).1 == Some(newId)
    ensures s.table.flights[f].startedAt + RESULT_TTL <= s.now
  {
    if s.now < s.table.flights[f].startedAt + RESULT_TTL {
      assert Entered(s.table, f);
      JoinKeepsFresh(s.table, key, at, s.now, newId, f);
    }
  }

  lemma CallKeepsTasks(s: State, c: Caller, key: Token, at: int, newId: FlightId)
    requires TimesInv(s) && TableInv(s.table) && Enabled(s, Call(c, key, at, newId))
    ensures TimesInv(Apply(s, Call(c, key, at, newId)))
  {
    JoinOpens(s.table, key, at, s.now, newId);
    var t := Apply(s, Call(c, key, at, newId));
    forall task | task in t.cleanups ensures Settled(t.table, task.flight) {
      assert Settled(s.table, task.flight);
    }
  }

  lemma CallKeepsTimes(s: State, c: Caller, key: Token, at: int, newId: FlightId)
    requires TableAndTimes(s) && Enabled(s, Call(c, key, at, newId))
    ensures TableAndTimes(Apply(s, Call(c, key, at, newId)))
  {
    assert TableInv(Join(s.table, key, at, s.now, newId).0) by {
      JoinKeepsTable(s.table, key, at, s.now, newId);
    }
    CallKeepsTasks(s, c, key, at, newId);
    CallKeepsFresh(s, c, key, at, newId);
    CallKeepsApart(s, c, key, at, newId);
  }

  lemma StepKeepsInv(s: State, step: Step)
    requires TableAndTimes(s) && CallersAndPosts(s) && Enabled(s, step)
    ensures TableAndTimes(Apply(s, step)) && CallersAndPosts(Apply(s, step))
  {
    match step
    case Tick(_) =>
    case Call(c, key, at, newId) => CallKeepsTimes(s, c, key, at, newId); CallKeepsCallers(s, c, key, at, newId);
    case BeginPost(c) => CellStepKeepsTimes(s, step); BeginPostKeepsCallers(s, c);
    case EndPost(c, outcome) => CellStepKeepsTimes(s, step); EndPostKeepsCallers(s, c, outcome);
    case Return(c) => CellStepKeepsTimes(s, step); ReturnKeepsCallers(s, c);
    case Cancel(c) => CellStepKeepsTimes(s, step); CancelKeepsCallers(s, c);
    case RunCleanup(task) => CleanupKeepsTimes(s, task); CleanupKeepsCallers(s, task);
  }

  lemma CleanupKeepsCallers(s: State, task: CleanupTask)
    requires CallersAndPosts(s) && Enabled(s, RunCleanup(task))
    ensures CallersAndPosts(Apply(s, RunCleanup(task)))
  {}

  lemma {:induction false} BehaviourKeepsInv(states: seq<State>, steps: seq<Step>, n: nat)
    requires Behaviour(states, steps)
    requires n < |states|
    ensures TableAndTimes(states[n]) && CallersAndPosts(states[n])
  {
    if n > 0 {
      BehaviourKeepsInv(states, steps, n - 1);
      StepKeepsInv(states[n - 1], steps[n - 1]);
    }
  }

  // ------------------------------------------------------------------ what the coordinator promises

  /** The eviction queue is duplicate-free, lists exactly the entered tokens, and stays within 512. */
  lemma QueueAndEntriesAgree(states: seq<State>, steps: seq<Step>, n: nat)
    requires Behaviour(states, steps)
    requires n < |states|
    ensures var t := states[n].table;
            NoDuplicates(t.order) && (forall k :: k in t.order <==> k in t.entries) && |t.entries| <= 512
  {
    BehaviourKeepsInv(states, steps, n);
  }

  /** One token never has two pending flights: a pending flight is always the one its token points at. */
  lemma OnePendingFlightPerToken(states: seq<State>, steps: seq<Step>, n: nat, f: FlightId, g: FlightId)
    requires Behaviour(states, steps)
    requires n < |states|
    requires f in states[n].table.flights && states[n].table.flights[f].result.None?
    requires g in states[n].table.flights && states[n].table.flights[g].result.None?
    ensures Entered(states[n].table, f)
    ensures states[n].table.flights[f].key == states[n].table.flights[g].key ==> f == g
  {
    BehaviourKeepsInv(states, steps, n);
    assert Entered(states[n].table, f) && Entered(states[n].table, g);
  }

  /** A result is written once: every caller that came back from a flight saw the same outcome. */
  lemma JoinersSeeOneOutcome(states: seq<State>, steps: seq<Step>, n: nat, c: Caller, d: Caller)
    requires Behaviour(states, steps)
    requires n < |states|
    requires c in states[n].callers && states[n].callers[c].Returned?
    requires d in states[n].callers && states[n].callers[d].Returned?
    ensures states[n].callers[c].flight == states[n].callers[d].flight ==>
            states[n].callers[c].outcome == states[n].callers[d].outcome
  {
    BehaviourKeepsInv(states, steps, n);
  }

  /** No cleanup, however late, removes a flight other than the one it was scheduled for. */
  lemma CleanupSparesNewerFlights(states: seq<State>, steps: seq<Step>, n: nat, f: FlightId)
    requires Behaviour(states, steps)
    requires n < |steps| && steps[n].RunCleanup? && steps[n].task.flight != f
    requires Entered(states[n].table, f)
    ensures Entered(states[n + 1].table, f)
  {
    BehaviourKeepsInv(states, steps, n);
    CleanUpKeepsOthers(states[n].table, steps[n].task.key, steps[n].task.flight);
  }

  /**
   * Single flight: of all the flights a token ever had, a later one opens only when every
   * earlier one that was not evicted has outlived its minute; and a flight whose
   * initialiser was never cancelled is POSTed at most once, and once if it has a result.
   */
  lemma OnePostPerMinute(states: seq<State>, steps: seq<Step>, n: nat, f: FlightId, g: FlightId)
    requires Behaviour(states, steps)
    requires n < |states|
    requires f in states[n].table.flights && g in states[n].table.flights && f < g
    requires states[n].table.flights[f].key == states[n].table.flights[g].key
    ensures f !in states[n].evicted && g !in states[n].evicted ==>
              states[n].table.flights[f].startedAt + 60 <= states[n].table.flights[g].openedAt
    ensures f !in states[n].cancelled ==>
              f in states[n].posts && states[n].posts[f] <= 1
                  && (states[n].table.flights[f].result.Some? ==> states[n].posts[f] == 1)
  {
    BehaviourKeepsInv(states, steps, n);
  }

  /** While a token's unevicted flight is younger than a minute, every call for the token joins it. */
  lemma CallsWithinAMinuteJoin(states: seq<State>, steps: seq<Step>, n: nat, f: FlightId)
    requires Behaviour(states, steps)
    requires n < |steps| && steps[n].Call?
    requires f in states[n].table.flights && states[n].table.flights[f].key == steps[n].key
    requires f !in states[n + 1].evicted && states[n].now < states[n].table.flights[f].startedAt + 60
    ensures steps[n].caller in states[n + 1].callers && states[n + 1].callers[steps[n].caller] == Waiting(f)
    ensures states[n + 1].table.flights == states[n].table.flights
  {
    BehaviourKeepsInv(states, steps, n);
    var s := states[n];
    assert Entered(s.table, f);
    JoinKeepsFresh(s.table, steps[n].key, steps[n].at, s.now, steps[n].newId, f);
    JoinOpens(s.table, steps[n].key, steps[n].at, s.now, steps[n].newId);
  }
}
