/**
 * Flights whose callers were all cancelled before there was a result. Nothing takes them out
 * of the table but a new call for their token, and enough of them close it to all others.
 */
module AbandonedFlights {
  import opened Basics
  import opened RefreshCoordinator
  import opened SingleFlight

  predicate OnFlight(p: Progress, f: FlightId) {
    (p.Waiting? || p.Posting?) && p.flight == f
  }

  /** A pending flight that nobody is waiting for. */
  predicate Abandoned(s: State, f: FlightId) {
    && f in s.table.flights && s.table.flights[f].result.None?
    && forall c | c in s.callers :: !OnFlight(s.callers[c], f)
  }

  predicate Calls(step: Step, key: Token) {
    step.Call? && step.key == key
  }

  lemma CallSparesAbandoned(s: State, step: Step, f: FlightId)
    requires TableInv(s.table) && Enabled(s, step) && Abandoned(s, f)
    requires step.Call? && step.key != s.table.flights[f].key
    ensures Abandoned(Apply(s, step), f) && Apply(s, step).table.flights[f].key == s.table.flights[f].key
  {
    JoinKeepsTable(s.table, step.key, step.at, s.now, step.newId);
  }

  /** Every step but a call for its token leaves an abandoned flight abandoned. */
  lemma StepKeepsAbandoned(s: State, step: Step, f: FlightId)
    requires TableInv(s.table) && Enabled(s, step) && Abandoned(s, f)
    requires !Calls(step, s.table.flights[f].key)
    ensures Abandoned(Apply(s, step), f) && Apply(s, step).table.flights[f].key == s.table.flights[f].key
  {
    if step.Call? {
      CallSparesAbandoned(s, step, f);
    }
  }

  lemma NextKeepsAbandoned(states: seq<State>, steps: seq<Step>, i: nat, f: FlightId)
    requires Behaviour(states, steps) && i < |steps| && Abandoned(states[i], f)
    requires !Calls(steps[i], states[i].table.flights[f].key)
    ensures Abandoned(states[i + 1], f) && states[i + 1].table.flights[f].key == states[i].table.flights[f].key
  {
    BehaviourKeepsInv(states, steps, i);
    StepKeepsAbandoned(states[i], steps[i], f);
  }

  lemma AbandonedIsEntered(states: seq<State>, steps: seq<Step>, n: nat, f: FlightId)
    requires Behaviour(states, steps) && n < |states| && Abandoned(states[n], f)
    ensures Entered(states[n].table, f)
  {
    BehaviourKeepsInv(states, steps, n);
  }

  /** It stays abandoned and keeps its token. */
  predicate AbandonedFor(s: State, f: FlightId, key: Token) {
    Abandoned(s, f) && s.table.flights[f].key == key
  }

  /**
   * Until a call for its token arrives, an abandoned flight stays in the table: it is never
   * pruned, evicted or cleaned up, however much time passes.
   */
  lemma {:induction false} AbandonedStays(states: seq<State>, steps: seq<Step>, m: nat, n: nat, f: FlightId, key: Token)
    requires Behaviour(states, steps) && m <= n < |states| && AbandonedFor(states[m], f, key)
    requires forall i | m <= i < n :: !Calls(steps[i], key)
    ensures AbandonedFor(states[n], f, key) && Entered(states[n].table, f)
  {
    if m < n {
      AbandonedStays(states, steps, m, n - 1, f, key);
      NextKeepsAbandoned(states, steps, n - 1, f);
    }
    AbandonedIsEntered(states, steps, n, f);
  }

  /** A call for its token joins it, and may run the POST. */
  lemma CallRevives(s: State, step: Step, f: FlightId)
    requires TableAndTimes(s) && CallersAndPosts(s) && Enabled(s, step) && Abandoned(s, f)
    requires Calls(step, s.table.flights[f].key)
    ensures var t := Apply(s, step);
            && step.caller in t.callers && t.callers[step.caller] == Waiting(f)
            && Enabled(t, BeginPost(step.caller))
  {
    JoinKeepsTable(s.table, step.key, step.at, s.now, step.newId);
    JoinOpens(s.table, step.key, step.at, s.now, step.newId);
    PruneKeepsTable(s.table, step.at);
    assert Entered(s.table, f) && !Settled(s.table, f);
    assert Entered(Prune(s.table, step.at), f);
  }

  /** All 512 places are taken by abandoned flights. */
  predicate Clogged(s: State) {
    && |s.table.entries| == MAX_RESULTS
    && forall k | k in s.table.entries :: AbandonedFor(s, s.table.entries[k], k)
  }

  lemma SameSize(a: set<Token>, b: set<Token>)
    requires a <= b && |b| <= |a|
    ensures a == b
  {
    assert b == a + (b - a);
  }

  /** A clogged table stays as it is as long as no call for one of its tokens arrives. */
  lemma CloggedStays(states: seq<State>, steps: seq<Step>, m: nat, n: nat)
    requires Behaviour(states, steps) && m <= n < |states| && Clogged(states[m])
    requires forall i | m <= i < n && steps[i].Call? :: steps[i].key !in states[m].table.entries
    ensures Clogged(states[n]) && states[n].table.entries == states[m].table.entries
  {
    var a, b := states[m].table.entries, states[n].table.entries;
    BehaviourKeepsInv(states, steps, n);
    forall k | k in a ensures k in b && b[k] == a[k] && Abandoned(states[n], a[k]) {
      AbandonedStays(states, steps, m, n, a[k], k);
    }
    assert |a.Keys| == |a| && |b.Keys| == |b|;
    SameSize(a.Keys, b.Keys);
  }

  /** And all that time every call for any other token is turned away. */
  lemma CloggedTurnsAway(states: seq<State>, steps: seq<Step>, m: nat, n: nat)
    requires Behaviour(states, steps) && m <= n < |steps| && Clogged(states[m])
    requires forall i | m <= i <= n && steps[i].Call? :: steps[i].key !in states[m].table.entries
    requires steps[n].Call?
    ensures steps[n].caller in states[n + 1].callers && states[n + 1].callers[steps[n].caller] == Rejected
  {
    var s, step := states[n], steps[n];
    CloggedStays(states, steps, m, n);
    BehaviourKeepsInv(states, steps, n);
    NothingPruned(s, step.at);
    assert step.newId !in s.table.flights;
    JoinFailsWhenFull(s.table, step.key, step.at, s.now, step.newId);
  }

  lemma NothingPruned(s: State, at: int)
    requires Clogged(s)
    ensures Prune(s.table, at).entries == s.table.entries
    ensures forall k | k in s.table.entries :: !Settled(s.table, s.table.entries[k])
  {}

  // ------------------------------------------------------------------ it can come to that

  lemma Then(states: seq<State>, steps: seq<Step>, step: Step) returns (more: seq<State>, taken: seq<Step>)
    requires Behaviour(states, steps) && Enabled(states[|steps|], step)
    ensures Behaviour(more, taken) && more[|taken|] == Apply(states[|steps|], step)
  {
    more, taken := states + [Apply(states[|steps|], step)], steps + [step];
    forall i | 0 <= i < |taken| ensures Enabled(more[i], taken[i]) && more[i + 1] == Apply(more[i], taken[i]) {
      if i < |steps| {
        assert more[i] == states[i] && taken[i] == steps[i] && more[i + 1] == states[i + 1];
      }
    }
  }

  predicate PendingFor(t: Table, k: Token) {
    k in t.flights && t.flights[k].key == k && t.flights[k].result.None?
  }

  /** The first `n` tokens were each called for once, by a caller that was cancelled. */
  predicate LeftBehind(s: State, n: nat) {
    s.callers == map[] && PendingUpTo(s.table, n)
  }

  predicate PendingUpTo(t: Table, n: nat) {
    && |t.entries| == n
    && (forall k | k in t.entries :: k < n && t.entries[k] == k && PendingFor(t, k))
    && (forall f | f in t.flights :: f < n)
  }

  lemma PendingTableOpens(t: Table, n: nat, at: int)
    requires TableInv(t) && PendingUpTo(t, n) && n < MAX_RESULTS
    ensures Join(t, n, at, at, n) == (Open(Prune(t, at), n, at, at, n), Some(n))
    ensures Prune(t, at).entries == t.entries
  {
    var pruned := Prune(t, at);
    assert pruned.entries == t.entries;
    PruneKeepsTable(t, at);
    MakeRoomEvictsSettled(pruned);
  }

  lemma OneMorePending(t: Table, n: nat, at: int)
    requires PendingUpTo(t, n)
    ensures PendingUpTo(Open(t, n, at, at, n), n + 1)
  {
    var u := Open(t, n, at, at, n);
    assert u.entries.Keys == t.entries.Keys + {n};
    assert |u.entries.Keys| == |u.entries| && |t.entries.Keys| == |t.entries|;
    forall k | k in u.entries ensures k < n + 1 && u.entries[k] == k && PendingFor(u, k) {
      assert k != n ==> k in t.entries && PendingFor(t, k);
    }
  }

  lemma CallThenCancel(s: State, n: nat)
    requires TableInv(s.table) && LeftBehind(s, n) && n < MAX_RESULTS
    ensures var call := Call(0, n, s.now, n);
            && Enabled(s, call) && Enabled(Apply(s, call), Cancel(0))
            && LeftBehind(Apply(Apply(s, call), Cancel(0)), n + 1)
  {
    PendingTableOpens(s.table, n, s.now);
    OneMorePending(Prune(s.table, s.now), n, s.now);
    var u := Apply(s, Call(0, n, s.now, n));
    assert u.callers == map[0 := Waiting(n)];
    assert u.callers - {0} == map[];
  }

  lemma OneMoreLeft(states: seq<State>, steps: seq<Step>, n: nat) returns (more: seq<State>, taken: seq<Step>)
    requires Behaviour(states, steps) && LeftBehind(states[|steps|], n) && n < MAX_RESULTS
    ensures Behaviour(more, taken) && LeftBehind(more[|taken|], n + 1)
  {
    var s := states[|steps|];
    BehaviourKeepsInv(states, steps, |steps|);
    CallThenCancel(s, n);
    more, taken := Then(states, steps, Call(0, n, s.now, n));
    more, taken := Then(more, taken, Cancel(0));
  }

  lemma {:induction false} LeftIsReachable(empty: State, n: nat) returns (states: seq<State>, steps: seq<Step>)
    requires Initial(empty) && n <= MAX_RESULTS
    ensures Behaviour(states, steps) && LeftBehind(states[|steps|], n)
  {
    if n == 0 {
      states, steps := [empty], [];
    } else {
      states, steps := LeftIsReachable(empty, n - 1);
      states, steps := OneMoreLeft(states, steps, n - 1);
    }
  }

  /** 512 calls for different tokens, each cancelled before it has a result, close the table. */
  lemma CloggedIsReachable(empty: State) returns (states: seq<State>, steps: seq<Step>)
    requires Initial(empty)
    ensures Behaviour(states, steps) && Clogged(states[|steps|])
  {
    states, steps := LeftIsReachable(empty, MAX_RESULTS);
  }
}
