/** Lists ranked, deduplicated and cut: what the best few entries with distinct keys are. */
module RankedLists {

  // ------------------------------------------------------------------ sorting

  /** Puts an entry before the first one that does not rank higher. */
  function Insert<T>(x: T, xs: seq<T>, rank: T -> int): seq<T> {
    if xs == [] then [x]
    else if rank(x) >= rank(xs[0]) then [x] + xs
    else [xs[0]] + Insert(x, xs[1..], rank)
  }

  /** Highest rank first; entries of equal rank stay in order. */
  function StableSort<T>(xs: seq<T>, rank: T -> int): seq<T> {
    if xs == [] then [] else Insert(xs[0], StableSort(xs[1..], rank), rank)
  }

  /** The sort key: higher rank first, then the earlier place. */
  ghost predicate Before<T>(a: T, b: T, rank: T -> int, place: (T, T) -> bool) {
    rank(a) > rank(b) || (rank(a) == rank(b) && place(a, b))
  }

  ghost predicate Transitive<T(!new)>(place: (T, T) -> bool) {
    forall a, b, c :: place(a, b) && place(b, c) ==> place(a, c)
  }

  ghost predicate Asymmetric<T(!new)>(place: (T, T) -> bool) {
    forall a, b :: place(a, b) ==> !place(b, a)
  }

  ghost predicate AllAfter<T>(x: T, xs: seq<T>, rank: T -> int, place: (T, T) -> bool) {
    forall y | y in xs :: Before(x, y, rank, place)
  }

  /** Strictly increasing in the sort key. */
  ghost predicate Sorted<T>(xs: seq<T>, rank: T -> int, place: (T, T) -> bool) {
    xs == [] || (AllAfter(xs[0], xs[1..], rank, place) && Sorted(xs[1..], rank, place))
  }

  /** Listed in increasing order. */
  ghost predicate InOrder<T>(xs: seq<T>, place: (T, T) -> bool) {
    xs == [] || ((forall y | y in xs[1..] :: place(xs[0], y)) && InOrder(xs[1..], place))
  }

  ghost predicate SameMembers<T>(xs: seq<T>, ys: seq<T>) {
    (forall x | x in xs :: x in ys) && (forall y | y in ys :: y in xs)
  }

  lemma {:induction false} InsertMembers<T>(x: T, xs: seq<T>, rank: T -> int)
    ensures forall y | y in Insert(x, xs, rank) :: y == x || y in xs
    ensures x in Insert(x, xs, rank) && forall y | y in xs :: y in Insert(x, xs, rank)
  {
    if xs != [] && rank(x) < rank(xs[0]) {
      InsertMembers(x, xs[1..], rank);
    }
  }

  lemma {:induction false} SortMembers<T>(xs: seq<T>, rank: T -> int)
    ensures SameMembers(StableSort(xs, rank), xs)
  {
    if xs != [] {
      SortMembers(xs[1..], rank);
      InsertMembers(xs[0], StableSort(xs[1..], rank), rank);
    }
  }

  lemma AfterInserted<T>(x: T, xs: seq<T>, rank: T -> int, place: (T, T) -> bool)
    requires xs != [] && rank(x) >= rank(xs[0]) && Sorted(xs, rank, place)
    requires forall y | y in xs :: place(x, y)
    ensures AllAfter(x, xs, rank, place)
  {
    forall y | y in xs ensures Before(x, y, rank, place) {
      if y in xs[1..] {
        assert Before(xs[0], y, rank, place);
      }
    }
  }

  lemma SortedCons<T>(x: T, xs: seq<T>, rank: T -> int, place: (T, T) -> bool)
    requires AllAfter(x, xs, rank, place) && Sorted(xs, rank, place)
    ensures Sorted([x] + xs, rank, place)
  {
    assert ([x] + xs)[1..] == xs;
  }

  lemma {:induction false} InsertSorts<T>(x: T, xs: seq<T>, rank: T -> int, place: (T, T) -> bool)
    requires Sorted(xs, rank, place)
    requires forall y | y in xs :: place(x, y)
    ensures Sorted(Insert(x, xs, rank), rank, place)
  {
    if xs == [] {
    } else if rank(x) >= rank(xs[0]) {
      AfterInserted(x, xs, rank, place);
      SortedCons(x, xs, rank, place);
    } else {
      var rest := Insert(x, xs[1..], rank);
      forall y | y in xs[1..] ensures place(x, y) {
        assert y in xs;
      }
      InsertSorts(x, xs[1..], rank, place);
      forall y | y in rest ensures Before(xs[0], y, rank, place) {
        InsertMembers(x, xs[1..], rank);
      }
      SortedCons(xs[0], rest, rank, place);
    }
  }

  /** Sorting by rank alone, stably, sorts a list in order by the whole key. */
  lemma {:induction false} StableSortSorts<T>(xs: seq<T>, rank: T -> int, place: (T, T) -> bool)
    requires InOrder(xs, place)
    ensures Sorted(StableSort(xs, rank), rank, place)
  {
    if xs != [] {
      StableSortSorts(xs[1..], rank, place);
      forall y | y in StableSort(xs[1..], rank) ensures place(xs[0], y) {
        SortMembers(xs[1..], rank);
      }
      InsertSorts(xs[0], StableSort(xs[1..], rank), rank, place);
    }
  }

  /** Whatever sorts the same entries by the whole key ends with the same list. */
  lemma {:induction false} SortedIsUnique<T(!new)>(xs: seq<T>, ys: seq<T>, rank: T -> int, place: (T, T) -> bool)
    requires Asymmetric(place)
    requires Sorted(xs, rank, place) && Sorted(ys, rank, place) && SameMembers(xs, ys)
    ensures xs == ys
  {
    assert xs != [] ==> xs[0] in ys;
    assert ys != [] ==> ys[0] in xs;
    if xs != [] {
      assert xs[0] == ys[0] || Before(ys[0], xs[0], rank, place);
      assert ys[0] == xs[0] || Before(xs[0], ys[0], rank, place);
      forall x | x in xs[1..] ensures x in ys[1..] {
        assert x in xs && Before(xs[0], x, rank, place);
      }
      forall y | y in ys[1..] ensures y in xs[1..] {
        assert y in ys && Before(ys[0], y, rank, place);
      }
      SortedIsUnique(xs[1..], ys[1..], rank, place);
      assert xs == [xs[0]] + xs[1..] && ys == [ys[0]] + ys[1..];
    }
  }

  // ------------------------------------------------------------------ filtering and relabelling

  function Where<T>(xs: seq<T>, keep: T -> bool): seq<T> {
    if xs == [] then [] else (if keep(xs[0]) then [xs[0]] else []) + Where(xs[1..], keep)
  }

  function Map<T, U>(xs: seq<T>, f: T -> U): seq<U> {
    if xs == [] then [] else [f(xs[0])] + Map(xs[1..], f)
  }

  lemma {:induction false} WhereMembers<T>(xs: seq<T>, keep: T -> bool)
    ensures forall x | x in Where(xs, keep) :: x in xs && keep(x)
    ensures forall x | x in xs && keep(x) :: x in Where(xs, keep)
  {
    if xs != [] {
      WhereMembers(xs[1..], keep);
    }
  }

  lemma {:induction false} WhereAll<T>(xs: seq<T>, keep: T -> bool)
    requires forall x | x in xs :: keep(x)
    ensures Where(xs, keep) == xs
  {
    if xs != [] {
      WhereAll(xs[1..], keep);
      assert [xs[0]] + xs[1..] == xs;
    }
  }

  lemma Regroup<T>(a: seq<T>, b: seq<T>, c: seq<T>)
    ensures a + b + c == a + (b + c)
  {}

  lemma {:induction false} WhereJoin<T>(a: seq<T>, b: seq<T>, keep: T -> bool)
    ensures Where(a + b, keep) == Where(a, keep) + Where(b, keep)
  {
    if a == [] {
      assert a + b == b;
    } else {
      assert (a + b)[1..] == a[1..] + b;
      WhereJoin(a[1..], b, keep);
      Regroup(if keep(a[0]) then [a[0]] else [], Where(a[1..], keep), Where(b, keep));
    }
  }

  lemma {:induction false} MapJoin<T, U>(a: seq<T>, b: seq<T>, f: T -> U)
    ensures Map(a + b, f) == Map(a, f) + Map(b, f)
  {
    if a == [] {
      assert a + b == b;
    } else {
      assert (a + b)[1..] == a[1..] + b;
      MapJoin(a[1..], b, f);
    }
  }

  lemma {:induction false} WhereStaysInOrder<T>(xs: seq<T>, keep: T -> bool, place: (T, T) -> bool)
    requires InOrder(xs, place)
    ensures InOrder(Where(xs, keep), place)
  {
    if xs != [] {
      WhereStaysInOrder(xs[1..], keep, place);
      var rest := Where(xs[1..], keep);
      forall y | y in rest ensures place(xs[0], y) {
        WhereMembers(xs[1..], keep);
      }
      assert ([xs[0]] + rest)[1..] == rest;
      assert Where(xs, keep) == if keep(xs[0]) then [xs[0]] + rest else rest;
    }
  }

  ghost predicate Falls<T>(xs: seq<T>, rank: T -> int) {
    xs == [] || ((forall y | y in xs[1..] :: rank(xs[0]) >= rank(y)) && Falls(xs[1..], rank))
  }

  lemma {:induction false} InsertFalls<T>(x: T, xs: seq<T>, rank: T -> int)
    requires Falls(xs, rank)
    ensures Falls(Insert(x, xs, rank), rank)
  {
    if xs == [] {
    } else if rank(x) >= rank(xs[0]) {
      assert ([x] + xs)[1..] == xs;
      assert forall y | y in xs :: y == xs[0] || y in xs[1..];
    } else {
      InsertFalls(x, xs[1..], rank);
      InsertMembers(x, xs[1..], rank);
      assert Insert(x, xs, rank)[1..] == Insert(x, xs[1..], rank);
    }
  }

  lemma {:induction false} SortFalls<T>(xs: seq<T>, rank: T -> int)
    ensures Falls(StableSort(xs, rank), rank)
  {
    if xs != [] {
      SortFalls(xs[1..], rank);
      InsertFalls(xs[0], StableSort(xs[1..], rank), rank);
    }
  }

  lemma InsertInFront<T>(x: T, xs: seq<T>, rank: T -> int)
    requires forall y | y in xs :: rank(x) >= rank(y)
    ensures Insert(x, xs, rank) == [x] + xs
  {
    if xs != [] {
      assert xs[0] in xs;
    }
  }

  lemma {:induction false} InsertThenFilter<T>(x: T, xs: seq<T>, rank: T -> int, keep: T -> bool)
    requires Falls(xs, rank)
    ensures Where(Insert(x, xs, rank), keep)
            == (if keep(x) then Insert(x, Where(xs, keep), rank) else Where(xs, keep))
  {
    if xs == [] {
    } else if rank(x) >= rank(xs[0]) {
      assert ([x] + xs)[1..] == xs;
      forall y | y in Where(xs, keep) ensures rank(x) >= rank(y) {
        WhereMembers(xs, keep);
        assert y == xs[0] || y in xs[1..];
      }
      InsertInFront(x, Where(xs, keep), rank);
    } else {
      var rest := Where(xs[1..], keep);
      InsertThenFilter(x, xs[1..], rank, keep);
      assert Insert(x, xs, rank)[1..] == Insert(x, xs[1..], rank);
      assert ([xs[0]] + rest)[1..] == rest;
      assert Where(xs, keep) == if keep(xs[0]) then [xs[0]] + rest else rest;
    }
  }

  /** Dropping entries before a stable sort or after it comes to the same. */
  lemma {:induction false} SortThenFilter<T>(xs: seq<T>, rank: T -> int, keep: T -> bool)
    ensures Where(StableSort(xs, rank), keep) == StableSort(Where(xs, keep), rank)
  {
    if xs != [] {
      SortThenFilter(xs[1..], rank, keep);
      SortFalls(xs[1..], rank);
      InsertThenFilter(xs[0], StableSort(xs[1..], rank), rank, keep);
      var rest := Where(xs[1..], keep);
      assert ([xs[0]] + rest)[1..] == rest;
      assert Where(xs, keep) == if keep(xs[0]) then [xs[0]] + rest else rest;
    }
  }

  lemma {:induction false} InsertThenMap<T, U>(x: T, xs: seq<T>, f: T -> U, rank: T -> int, mapped: U -> int)
    requires forall y :: rank(y) == mapped(f(y))
    ensures Map(Insert(x, xs, rank), f) == Insert(f(x), Map(xs, f), mapped)
  {
    if xs == [] {
    } else if rank(x) >= rank(xs[0]) {
      assert ([x] + xs)[1..] == xs;
    } else {
      InsertThenMap(x, xs[1..], f, rank, mapped);
      assert Insert(x, xs, rank)[1..] == Insert(x, xs[1..], rank);
      assert Map(xs, f)[1..] == Map(xs[1..], f);
    }
  }

  /** What the rank does not see may be relabelled before or after sorting. */
  lemma {:induction false} SortThenMap<T, U>(xs: seq<T>, f: T -> U, rank: T -> int, mapped: U -> int)
    requires forall y :: rank(y) == mapped(f(y))
    ensures Map(StableSort(xs, rank), f) == StableSort(Map(xs, f), mapped)
  {
    if xs != [] {
      SortThenMap(xs[1..], f, rank, mapped);
      InsertThenMap(xs[0], StableSort(xs[1..], rank), f, rank, mapped);
      assert Map(xs, f)[1..] == Map(xs[1..], f);
    }
  }

  // ------------------------------------------------------------------ distinct keys

  ghost predicate HasKey<T, K>(xs: seq<T>, key: T -> K, k: K) {
    exists x | x in xs :: key(x) == k
  }

  /** The first entry of each key, in order, leaving out keys already seen. */
  function FirstOfEach<T, K(==)>(xs: seq<T>, key: T -> K, seen: set<K>): seq<T> {
    if xs == [] then []
    else if key(xs[0]) in seen then FirstOfEach(xs[1..], key, seen)
    else [xs[0]] + FirstOfEach(xs[1..], key, seen + {key(xs[0])})
  }

  function Take<T>(xs: seq<T>, limit: nat): seq<T> {
    if |xs| <= limit then xs else xs[..limit]
  }

  /** One pass with a set of keys seen, stopping once enough entries are kept. */
  method KeepFirstOfEach<T, K(==)>(xs: seq<T>, key: T -> K, limit: nat) returns (kept: seq<T>)
    ensures kept == Take(FirstOfEach(xs, key, {}), limit)
  {
    kept := [];
    var seen: set<K> := {};
    var i := 0;
    ghost var whole := FirstOfEach(xs, key, {});
    assert xs[0..] == xs;
    while i < |xs| && |kept| < limit
      invariant i <= |xs| && |kept| <= limit
      invariant kept + FirstOfEach(xs[i..], key, seen) == whole
    {
      assert xs[i..][1..] == xs[i + 1..];
      if key(xs[i]) !in seen {
        seen := seen + {key(xs[i])};
        kept := kept + [xs[i]];
      }
      i := i + 1;
    }
    assert i == |xs| ==> xs[i..] == [];
  }

  // ------------------------------------------------------------------ the best few

  function TopDistinct<T, K(==)>(xs: seq<T>, rank: T -> int, key: T -> K, limit: nat): seq<T> {
    Take(FirstOfEach(StableSort(xs, rank), key, {}), limit)
  }

  /** An entry is kept or gives way to a kept one of its key that comes before it. */
  ghost predicate Represented<T, K>(y: T, kept: seq<T>, rank: T -> int, place: (T, T) -> bool, key: T -> K) {
    exists x | x in kept :: key(x) == key(y) && (x == y || Before(x, y, rank, place))
  }

  lemma {:induction false} KeptAreMembers<T, K>(xs: seq<T>, key: T -> K, seen: set<K>)
    ensures forall x | x in FirstOfEach(xs, key, seen) :: x in xs && key(x) !in seen
  {
    if xs != [] {
      KeptAreMembers(xs[1..], key, if key(xs[0]) in seen then seen else seen + {key(xs[0])});
    }
  }

  lemma {:induction false} KeptRepresent<T, K>(
      xs: seq<T>, rank: T -> int, place: (T, T) -> bool, key: T -> K, seen: set<K>)
    requires Sorted(xs, rank, place)
    ensures forall y | y in xs && key(y) !in seen :: Represented(y, FirstOfEach(xs, key, seen), rank, place, key)
  {
    if xs != [] {
      var first := xs[0];
      var later := if key(first) in seen then seen else seen + {key(first)};
      KeptRepresent(xs[1..], rank, place, key, later);
      forall y | y in xs && key(y) !in seen
        ensures Represented(y, FirstOfEach(xs, key, seen), rank, place, key)
      {
        if key(y) in later {
          assert first in FirstOfEach(xs, key, seen);
          assert y == first || y in xs[1..];
        } else {
          assert y in xs[1..];
          assert Represented(y, FirstOfEach(xs[1..], key, later), rank, place, key);
        }
      }
    }
  }

  ghost predicate DistinctKeys<T, K>(xs: seq<T>, key: T -> K) {
    forall i, j | 0 <= i < j < |xs| :: key(xs[i]) != key(xs[j])
  }

  ghost predicate SortedPairs<T>(xs: seq<T>, rank: T -> int, place: (T, T) -> bool) {
    forall i, j | 0 <= i < j < |xs| :: Before(xs[i], xs[j], rank, place)
  }

  lemma {:induction false} KeptAreSorted<T, K>(
      xs: seq<T>, rank: T -> int, place: (T, T) -> bool, key: T -> K, seen: set<K>)
    requires Sorted(xs, rank, place)
    ensures SortedPairs(FirstOfEach(xs, key, seen), rank, place)
    ensures DistinctKeys(FirstOfEach(xs, key, seen), key)
  {
    if xs != [] {
      var later := if key(xs[0]) in seen then seen else seen + {key(xs[0])};
      var rest := FirstOfEach(xs[1..], key, later);
      KeptAreSorted(xs[1..], rank, place, key, later);
      KeptAreMembers(xs[1..], key, later);
      if key(xs[0]) !in seen {
        forall j | 0 <= j < |rest| ensures Before(xs[0], rest[j], rank, place) && key(rest[j]) != key(xs[0]) {
          assert rest[j] in rest;
        }
      }
    }
  }

  /**
   * The best few of a list: members of it with distinct keys, in key order; each comes
   * before every other entry of its key; and an entry whose key is not kept comes after
   * every kept one, which happens only when the limit is reached.
   */
  ghost predicate AreTheBest<T, K>(
      xs: seq<T>, kept: seq<T>, rank: T -> int, place: (T, T) -> bool, key: T -> K, limit: nat) {
    && |kept| <= limit
    && (forall x | x in kept :: x in xs)
    && SortedPairs(kept, rank, place)
    && DistinctKeys(kept, key)
    && (forall x, y | x in kept && y in xs && key(y) == key(x) :: x == y || Before(x, y, rank, place))
    && (forall y | y in xs && !HasKey(kept, key, key(y)) :: |kept| == limit && forall x | x in kept ::
       Before(x, y, rank, place))
  }

  lemma TakeKeeps<T, K>(all: seq<T>, limit: nat, rank: T -> int, place: (T, T) -> bool, key: T -> K)
    requires SortedPairs(all, rank, place) && DistinctKeys(all, key)
    ensures SortedPairs(Take(all, limit), rank, place) && DistinctKeys(Take(all, limit), key)
    ensures forall x | x in Take(all, limit) :: x in all
  {}

  lemma TopDistinctAreTheBest<T(!new), K>(xs: seq<T>, rank: T -> int, place: (T, T) -> bool, key: T -> K, limit: nat)
    requires InOrder(xs, place) && Transitive(place)
    ensures AreTheBest(xs, TopDistinct(xs, rank, key, limit), rank, place, key, limit)
  {
    var sorted := StableSort(xs, rank);
    var all := FirstOfEach(sorted, key, {});
    StableSortSorts(xs, rank, place);
    SortMembers(xs, rank);
    KeptAreMembers(sorted, key, {});
    KeptAreSorted(sorted, rank, place, key, {});
    KeptRepresent(sorted, rank, place, key, {});
    TakeKeeps(all, limit, rank, place, key);
    KeptComeFirst(xs, all, Take(all, limit), rank, place, key, limit);
  }

  lemma SameKeySameEntry<T, K>(all: seq<T>, key: T -> K, x: T, y: T)
    requires DistinctKeys(all, key) && x in all && y in all && key(x) == key(y)
    ensures x == y
  {
    var i :| 0 <= i < |all| && all[i] == x;
    var j :| 0 <= j < |all| && all[j] == y;
    assert !(i < j) && !(j < i);
  }

  lemma KeptComeFirst<T(!new), K>(
      xs: seq<T>, all: seq<T>, kept: seq<T>, rank: T -> int, place: (T, T) -> bool, key: T -> K, limit: nat)
    requires Transitive(place)
    requires SortedPairs(all, rank, place) && DistinctKeys(all, key) && kept == Take(all, limit)
    requires forall y | y in xs :: Represented(y, all, rank, place, key)
    ensures forall x, y | x in kept && y in xs && key(y) == key(x) :: x == y || Before(x, y, rank, place)
    ensures forall y | y in xs && !HasKey(kept, key, key(y)) ::
              |kept| == limit && forall x | x in kept :: Before(x, y, rank, place)
  {
    forall x, y | x in kept && y in xs && key(y) == key(x) ensures x == y || Before(x, y, rank, place) {
      assert Represented(y, all, rank, place, key);
      var z :| z in all && key(z) == key(y) && (z == y || Before(z, y, rank, place));
      SameKeySameEntry(all, key, x, z);
    }
    forall y | y in xs && !HasKey(kept, key, key(y))
      ensures |kept| == limit && forall x | x in kept :: Before(x, y, rank, place)
    {
      assert Represented(y, all, rank, place, key);
      var z :| z in all && key(z) == key(y) && (z == y || Before(z, y, rank, place));
      var j :| 0 <= j < |all| && all[j] == z;
      assert j < |kept| ==> z in kept;
      forall x | x in kept ensures Before(x, y, rank, place) {
        var i :| 0 <= i < |kept| && kept[i] == x;
        assert Before(all[i], all[j], rank, place);
      }
    }
  }
}
