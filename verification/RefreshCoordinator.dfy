/**
 * The shared table of refresh-token exchanges: a map from token to flight, with the
 * tokens queued in arrival order for eviction. Flights are cells shared with the callers
 * that joined them; a flight's id stands for its address.
 */
module RefreshCoordinator {
  import opened Basics

  const RESULT_TTL: nat := 60
  const MAX_RESULTS: nat := 512

  /** The SHA-256 digest a refresh token is filed under. */
  type Token = nat
  type FlightId = nat
  type Caller = nat

  datatype Outcome = Success(accessToken: string, refreshToken: string) | Unauthorized | Unavailable

  /** `openedAt` is when the flight was entered under the lock; `startedAt` was read before taking it. */
  datatype Flight = Flight(
    key: Token, startedAt: int, openedAt: int, result: Option<Outcome>, cleanupScheduled: bool, poster: Option<Caller>)

  datatype Table = Table(entries: map<Token, FlightId>, order: seq<Token>, flights: map<FlightId, Flight>)

  predicate Settled(t: Table, f: FlightId) {
    f in t.flights && t.flights[f].result.Some?
  }

  /** `saturating_duration_since`. */
  function Elapsed(at: int, startedAt: int): nat {
    if at <= startedAt then 0 else at - startedAt
  }

  predicate Kept(t: Table, at: int, f: FlightId) {
    !Settled(t, f) || Elapsed(at, t.flights[f].startedAt) <= RESULT_TTL
  }

  /** `retain`: the elements of a queue that are in a set, in order. */
  function Retain(order: seq<Token>, keys: set<Token>): seq<Token> {
    if order == [] then [] else
    (if order[0] in keys then [order[0]] else []) + Retain(order[1..], keys)
  }

  /** Drops settled flights that have outlived their result. */
  function Prune(t: Table, at: int): Table {
    var entries := map k | k in t.entries && Kept(t, at, t.entries[k]) :: t.entries[k];
    t.(entries := entries, order := Retain(t.order, entries.Keys))
  }

  function Remove(t: Table, key: Token): Table {
    t.(entries := t.entries - {key}, order := Retain(t.order, (set k | k in t.order) - {key}))
  }

  /** The first queued token whose flight has settled. */
  function FirstSettled(t: Table, order: seq<Token>): Option<Token> {
    if order == [] then None
    else if order[0] in t.entries && Settled(t, t.entries[order[0]]) then Some(order[0])
    else FirstSettled(t, order[1..])
  }

  /** A settled token that stands in the queue behind pending ones only. */
  ghost predicate OldestSettled(t: Table, order: seq<Token>, k: Token) {
    && k in t.entries && Settled(t, t.entries[k])
    && exists j :: 0 <= j < |order| && order[j] == k && NoneSettled(t, order[..j])
  }

  predicate NoneSettled(t: Table, order: seq<Token>) {
    forall i | 0 <= i < |order| && order[i] in t.entries :: !Settled(t, t.entries[order[i]])
  }

  lemma {:induction false} FirstSettledIsOldest(t: Table, order: seq<Token>)
    ensures FirstSettled(t, order).Some? ==> OldestSettled(t, order, FirstSettled(t, order).value)
  {
    if order == [] {
    } else if order[0] in t.entries && Settled(t, t.entries[order[0]]) {
      assert order[0] == order[0] && NoneSettled(t, order[..0]);
    } else {
      FirstSettledIsOldest(t, order[1..]);
      if FirstSettled(t, order[1..]).Some? {
        var k := FirstSettled(t, order[1..]).value;
        var j :| 0 <= j < |order[1..]| && order[1..][j] == k && NoneSettled(t, order[1..][..j]);
        assert order[j + 1] == k;
        forall i | 0 <= i < j + 1 && order[..j + 1][i] in t.entries ensures !Settled(t, t.entries[order[i]]) {
          assert i > 0 ==> order[1..][..j][i - 1] == order[i];
        }
      }
    }
  }

  lemma {:induction false} FirstSettledIsFirst(t: Table, order: seq<Token>)
    ensures FirstSettled(t, order).Some? ==>
              var k := FirstSettled(t, order).value; k in order && k in t.entries && Settled(t, t.entries[k])
    ensures FirstSettled(t, order).None? ==> forall k | k in order && k in t.entries :: !Settled(t, t.entries[k])
  {
    if order != [] {
      FirstSettledIsFirst(t, order[1..]);
    }
  }

  lemma {:induction false} RetainKeeps(order: seq<Token>, keys: set<Token>)
    ensures forall k :: k in Retain(order, keys) <==> k in order && k in keys
  {
    if order != [] {
      RetainKeeps(order[1..], keys);
    }
  }

  predicate NoDuplicates(order: seq<Token>) {
    order == [] || (order[0] !in order[1..] && NoDuplicates(order[1..]))
  }

  lemma {:induction false} RetainNoDuplicates(order: seq<Token>, keys: set<Token>)
    requires NoDuplicates(order)
    ensures NoDuplicates(Retain(order, keys))
  {
    if order != [] {
      RetainNoDuplicates(order[1..], keys);
      RetainKeeps(order[1..], keys);
      if order[0] in keys {
        assert Retain(order, keys)[1..] == Retain(order[1..], keys);
      } else {
        assert Retain(order, keys) == Retain(order[1..], keys);
      }
    }
  }

  lemma {:induction false} AppendNoDuplicates(order: seq<Token>, key: Token)
    requires NoDuplicates(order) && key !in order
    ensures NoDuplicates(order + [key])
  {
    if order != [] {
      AppendNoDuplicates(order[1..], key);
      assert (order + [key])[1..] == order[1..] + [key];
    }
  }

  /** Evicts settled flights, oldest first, until there is room or only pending ones are left. */
  function MakeRoom(t: Table): Table
    decreases |t.entries|
  {
    if |t.entries| < MAX_RESULTS then t else
    FirstSettledIsFirst(t, t.order);
    match FirstSettled(t, t.order)
    case None => t
    case Some(k) =>
      assert |t.entries - {k}| < |t.entries| by { RemoveShrinks(t.entries, k); }
      MakeRoom(Remove(t, k))
  }

  lemma RemoveShrinks(entries: map<Token, FlightId>, k: Token)
    requires k in entries
    ensures |entries - {k}| == |entries| - 1
  {
    assert (entries - {k}).Keys == entries.Keys - {k};
    assert |(entries - {k}).Keys| == |entries.Keys| - 1;
  }

  // ------------------------------------------------------------------ the table's invariant

  ghost predicate QueueMatches(t: Table) {
    NoDuplicates(t.order) && forall k :: k in t.order <==> k in t.entries
  }

  /** Every entry is a known flight for its token, and every pending flight is entered. */
  ghost predicate FlightsMatch(t: Table) {
    && (forall k | k in t.entries :: t.entries[k] in t.flights && t.flights[t.entries[k]].key == k)
    && (forall f | f in t.flights && t.flights[f].result.None? :: Entered(t, f))
  }

  predicate Entered(t: Table, f: FlightId) {
    f in t.flights && t.flights[f].key in t.entries && t.entries[t.flights[f].key] == f
  }

  ghost predicate TableInv(t: Table) {
    QueueMatches(t) && FlightsMatch(t) && |t.entries| <= MAX_RESULTS
  }

  /** Entries only go, and only settled ones. */
  ghost predicate OnlySettledLeft(t: Table, u: Table) {
    && u.flights == t.flights
    && (forall k | k in u.entries :: k in t.entries && u.entries[k] == t.entries[k])
    && (forall f | Entered(t, f) && !Settled(t, f) :: Entered(u, f))
  }

  lemma SubmapIsSmaller(a: map<Token, FlightId>, b: map<Token, FlightId>)
    requires a.Keys <= b.Keys
    ensures |a| <= |b|
  {
    SubsetIsSmaller(a.Keys, b.Keys);
  }

  lemma {:induction false} SubsetIsSmaller(a: set<Token>, b: set<Token>)
    requires a <= b
    ensures |a| <= |b|
  {
    assert b == a + (b - a);
  }

  /** Pruning keeps the table sound and every pending flight in it. */
  lemma PruneKeepsTable(t: Table, at: int)
    requires TableInv(t)
    ensures TableInv(Prune(t, at)) && OnlySettledLeft(t, Prune(t, at))
  {
    var u := Prune(t, at);
    RetainKeeps(t.order, u.entries.Keys);
    RetainNoDuplicates(t.order, u.entries.Keys);
    SubmapIsSmaller(u.entries, t.entries);
  }

  /** What pruning takes away had settled and was started more than a minute ago, and nothing like it is left. */
  lemma PruneDropsExpired(t: Table, at: int)
    requires TableInv(t)
    ensures forall f | Entered(t, f) && !Entered(Prune(t, at), f) ::
              Settled(t, f) && at - t.flights[f].startedAt > 60
    ensures forall f | Entered(Prune(t, at), f) && Settled(t, f) :: at - t.flights[f].startedAt <= 60
  {}

  lemma RemoveKeepsTable(t: Table, key: Token)
    requires TableInv(t) && key in t.entries && Settled(t, t.entries[key])
    ensures TableInv(Remove(t, key)) && OnlySettledLeft(t, Remove(t, key))
    ensures |Remove(t, key).entries| == |t.entries| - 1
  {
    var keys := (set k | k in t.order) - {key};
    RetainKeeps(t.order, keys);
    RetainNoDuplicates(t.order, keys);
    RemoveShrinks(t.entries, key);
  }

  /**
   * Room is made unless all 512 entries are still pending; nothing goes while there is room,
   * and what goes is the settled entry that has queued longest.
   */
  lemma MakeRoomEvictsSettled(t: Table)
    requires TableInv(t)
    ensures TableInv(MakeRoom(t)) && OnlySettledLeft(t, MakeRoom(t))
    ensures |t.entries| < 512 ==> MakeRoom(t) == t
    ensures |MakeRoom(t).entries| == 512 <==>
            |t.entries| == 512 && forall k | k in t.entries :: !Settled(t, t.entries[k])
    ensures |MakeRoom(t).entries| >= |t.entries| - 1
    ensures forall k | k in t.entries && k !in MakeRoom(t).entries :: OldestSettled(t, t.order, k)
  {
    if |t.entries| == MAX_RESULTS {
      FirstSettledIsFirst(t, t.order);
      FirstSettledIsOldest(t, t.order);
      match FirstSettled(t, t.order)
      case None =>
      case Some(k) => RemoveKeepsTable(t, k);
    }
  }

  // ------------------------------------------------------------------ as it is written

  /** The coordinator behind the lock, with the flight cells its callers share. */
  class Coordinator {
    var entries: map<Token, FlightId>
    var order: seq<Token>
    var flights: map<FlightId, Flight>

    function State(): Table
      reads this
    {
      Table(entries, order, flights)
    }

    method PruneEntries(at: int)
      modifies this`entries, this`order
      ensures State() == Prune(old(State()), at)
    {
      entries := map k | k in entries && Kept(State(), at, entries[k]) :: entries[k];
      order := Retain(order, entries.Keys);
    }

    method EvictSettled()
      modifies this`entries, this`order
      ensures State() == MakeRoom(old(State()))
    {
      while MAX_RESULTS <= |entries|
        invariant MakeRoom(State()) == MakeRoom(old(State()))
        decreases |entries|
      {
        var key := FirstSettled(State(), order);
        FirstSettledIsFirst(State(), order);
        if key.None? {
          break;
        }
        RemoveShrinks(entries, key.value);
        entries := entries - {key.value};
        order := Retain(order, (set k | k in order) - {key.value});
      }
    }

    /** The locked section of a refresh: join the token's flight, or open one if there is room. */
    method JoinOrOpen(key: Token, at: int, now: int, added: FlightId) returns (flight: Option<FlightId>)
      requires added !in flights
      modifies this
      ensures (State(), flight) == Join(old(State()), key, at, now, added)
    {
      PruneEntries(at);
      if key in entries {
        return Some(entries[key]);
      }
      EvictSettled();
      if MAX_RESULTS <= |entries| {
        return None;
      }
      flights := flights[added := Flight(key, at, now, None, false, None)];
      order := order + [key];
      entries := entries[key := added];
      return Some(added);
    }

    /** The delayed cleanup: only if the token still points at this very flight. */
    method Cleanup(key: Token, flight: FlightId)
      modifies this`entries, this`order
      ensures State() == CleanUp(old(State()), key, flight)
    {
      if key in entries && entries[key] == flight {
        entries := entries - {key};
        order := Retain(order, (set k | k in order) - {key});
      }
    }
  }

  function Join(t: Table, key: Token, at: int, now: int, newId: FlightId): (Table, Option<FlightId>) {
    var pruned := Prune(t, at);
    if key in pruned.entries then (pruned, Some(pruned.entries[key])) else
    var roomy := MakeRoom(pruned);
    if MAX_RESULTS <= |roomy.entries| then (roomy, None) else
    (Open(roomy, key, at, now, newId), Some(newId))
  }

  function CleanUp(t: Table, key: Token, flight: FlightId): Table {
    if key in t.entries && t.entries[key] == flight then Remove(t, key) else t
  }

  /** Joining keeps the table sound and every pending flight in it. */
  lemma JoinKeepsTable(t: Table, key: Token, at: int, now: int, newId: FlightId)
    requires TableInv(t) && newId !in t.flights
    ensures var (u, flight) := Join(t, key, at, now, newId);
            && TableInv(u)
            && (forall f | f in t.flights :: f in u.flights && u.flights[f] == t.flights[f])
            && (forall f | Entered(t, f) && !Settled(t, f) :: Entered(u, f))
            && (flight.Some? ==>
               flight.value in u.flights && Entered(u, flight.value) && u.flights[flight.value].key == key)
  {
    PruneKeepsTable(t, at);
    var pruned := Prune(t, at);
    if key !in pruned.entries {
      MakeRoomEvictsSettled(pruned);
      var roomy := MakeRoom(pruned);
      if |roomy.entries| < MAX_RESULTS {
        OpenKeepsTable(roomy, key, at, now, newId);
      }
    }
  }

  lemma OpenKeepsTable(t: Table, key: Token, at: int, now: int, newId: FlightId)
    requires TableInv(t) && newId !in t.flights && key !in t.entries && |t.entries| < MAX_RESULTS
    ensures var u := Open(t, key, at, now, newId);
            && TableInv(u)
            && (forall f | f in t.flights :: f in u.flights && u.flights[f] == t.flights[f])
            && (forall f | Entered(t, f) :: Entered(u, f))
            && Entered(u, newId) && u.flights[newId].key == key
  {
    OpenKeepsQueue(t, key, at, now, newId);
    OpenKeepsFlights(t, key, at, now, newId);
  }

  /** Joining fails for want of room exactly when 512 other tokens' flights are all still pending. */
  lemma JoinFailsWhenFull(t: Table, key: Token, at: int, now: int, newId: FlightId)
    requires TableInv(t) && newId !in t.flights
    ensures Join(t, key, at, now, newId).1.None? <==>
              var p := Prune(t, at);
              key !in p.entries && |p.entries| == 512 && forall k | k in p.entries :: !Settled(p, p.entries[k])
  {
    PruneKeepsTable(t, at);
    MakeRoomEvictsSettled(Prune(t, at));
  }

  function Open(t: Table, key: Token, at: int, now: int, newId: FlightId): Table {
    Table(t.entries[key := newId], t.order + [key], t.flights[newId := Flight(key, at, now, None, false, None)])
  }

  lemma OpenKeepsQueue(t: Table, key: Token, at: int, now: int, newId: FlightId)
    requires QueueMatches(t) && key !in t.entries
    ensures QueueMatches(Open(t, key, at, now, newId)) && |Open(t, key, at, now, newId).entries| == |t.entries| + 1
  {
    AppendNoDuplicates(t.order, key);
    var entries := t.entries[key := newId];
    assert entries.Keys == t.entries.Keys + {key};
    assert |entries.Keys| == |t.entries.Keys| + 1;
  }

  lemma OpenKeepsFlights(t: Table, key: Token, at: int, now: int, newId: FlightId)
    requires FlightsMatch(t) && newId !in t.flights && key !in t.entries
    ensures FlightsMatch(Open(t, key, at, now, newId))
    ensures forall f | Entered(t, f) :: Entered(Open(t, key, at, now, newId), f)
  {}

  /** A delayed cleanup never removes another flight, least of all a newer one for the same token. */
  lemma CleanUpKeepsOthers(t: Table, key: Token, flight: FlightId)
    requires TableInv(t) && Settled(t, flight)
    ensures TableInv(CleanUp(t, key, flight)) && OnlySettledLeft(t, CleanUp(t, key, flight))
    ensures forall f | f != flight && Entered(t, f) :: Entered(CleanUp(t, key, flight), f)
  {
    if key in t.entries && t.entries[key] == flight {
      RemoveKeepsTable(t, key);
    }
  }
}
