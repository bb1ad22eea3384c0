/** When the order in which activities are given shows in a profile. */
module ProfileOrder {
  import opened Basics
  import opened RankedLists
  import opened StringOrders
  import opened CustomerProfile

  // ------------------------------------------------------------------ what a profile sees

  /** Of a session's source a profile sees only whether it is a customer's. */
  function Seen(): Activity -> Activity {
    (a: Activity) => a.(source := if a.source == "customer" then "customer" else "")
  }

  /** Activities the sort does not tell apart. */
  predicate Tied(a: Activity, b: Activity) {
    a.at == b.at && a.session == b.session && a.operation == b.operation
  }

  lemma {:induction false} MapAt<T, U>(xs: seq<T>, f: T -> U)
    ensures |Map(xs, f)| == |xs| && forall i | 0 <= i < |xs| :: Map(xs, f)[i] == f(xs[i])
  {
    if xs != [] {
      MapAt(xs[1..], f);
    }
  }

  lemma MapTake<T, U>(xs: seq<T>, limit: nat, f: T -> U)
    ensures Map(Take(xs, limit), f) == Take(Map(xs, f), limit)
  {
    MapAt(xs, f);
    MapAt(Take(xs, limit), f);
  }

  /** Taking one element out of the middle. */
  lemma MapWithout<T, U>(before: seq<T>, x: T, after: seq<T>, f: T -> U)
    ensures multiset(Map(before + [x] + after, f)) == multiset{f(x)} + multiset(Map(before + after, f))
  {
    MapJoin(before + [x], after, f);
    MapJoin(before, [x], f);
    MapJoin(before, after, f);
    assert [x][1..] == [];
  }

  lemma {:induction false} MapPermutes<T, U>(xs: seq<T>, ys: seq<T>, f: T -> U)
    requires multiset(xs) == multiset(ys)
    ensures multiset(Map(xs, f)) == multiset(Map(ys, f))
  {
    if xs == [] {
      assert |multiset(ys)| == 0;
    } else {
      assert xs[0] in multiset(ys);
      var i :| 0 <= i < |ys| && ys[i] == xs[0];
      var before, after := ys[..i], ys[i + 1..];
      assert xs == [xs[0]] + xs[1..];
      assert ys == before + [ys[i]] + after;
      assert multiset(xs[1..]) == multiset(xs) - multiset{xs[0]};
      assert multiset(before + after) == multiset(ys) - multiset{ys[i]};
      MapPermutes(xs[1..], before + after, f);
      MapWithout(before, ys[i], after, f);
    }
  }

  lemma {:induction false} InsertSeen(a: Activity, xs: seq<Activity>)
    ensures Map(InsertActivity(a, xs), Seen()) == InsertActivity(Seen()(a), Map(xs, Seen()))
  {
    if xs != [] && Precedes(xs[0], a) {
      InsertSeen(a, xs[1..]);
      assert ([xs[0]] + InsertActivity(a, xs[1..]))[1..] == InsertActivity(a, xs[1..]);
    } else {
      assert ([a] + xs)[1..] == xs;
    }
  }

  lemma {:induction false} SortSeen(xs: seq<Activity>)
    ensures Map(NewestFirst(xs), Seen()) == NewestFirst(Map(xs, Seen()))
  {
    if xs != [] {
      SortSeen(xs[1..]);
      InsertSeen(xs[0], NewestFirst(xs[1..]));
    }
  }

  lemma StatedBySeen(a: Activity, parse: Parser)
    ensures StatedBy(Seen()(a), parse) == StatedBy(a, parse)
  {
    assert forall p :: Scoped(Seen()(a), p) == Scoped(a, p);
  }

  lemma {:induction false} StatingSeen(xs: seq<Activity>, f: ScopedFact, parse: Parser)
    ensures Map(Stating(xs, f, parse), Seen()) == Stating(Map(xs, Seen()), f, parse)
  {
    if xs != [] {
      StatingSeen(xs[1..], f, parse);
      StatedBySeen(xs[0], parse);
      var rest := Stating(xs[1..], f, parse);
      assert ([xs[0]] + rest)[1..] == rest && [] + rest == rest;
      assert Map(xs, Seen())[1..] == Map(xs[1..], Seen());
    }
  }

  lemma {:induction false} FirstsSeen(xs: seq<Activity>, sessions: set<nat>)
    ensures Map(FirstOfEach(xs, SessionOf(), sessions), Seen()) == FirstOfEach(Map(xs, Seen()), SessionOf(), sessions)
  {
    if xs != [] {
      var later := if xs[0].session in sessions then sessions else sessions + {xs[0].session};
      FirstsSeen(xs[1..], later);
      var rest := FirstOfEach(xs[1..], SessionOf(), later);
      assert ([xs[0]] + rest)[1..] == rest;
    }
  }

  lemma EvidenceSeen(xs: seq<Activity>)
    ensures EvidenceFor(Map(xs, Seen())) == EvidenceFor(xs)
  {
    var firsts := FirstOfEach(xs, SessionOf(), {});
    FirstsSeen(xs, {});
    MapTake(firsts, MAX_FACT_EVIDENCE, Seen());
    var kept := Take(firsts, MAX_FACT_EVIDENCE);
    MapAt(kept, Seen());
    MapAt(kept, EvidenceOf());
    MapAt(Map(kept, Seen()), EvidenceOf());
    assert Map(Map(kept, Seen()), EvidenceOf()) == Map(kept, EvidenceOf());
  }

  lemma SessionsSeen(xs: seq<Activity>)
    ensures SessionsOf(Map(xs, Seen())) == SessionsOf(xs)
  {
    var ys := Map(xs, Seen());
    MapAt(xs, Seen());
    forall a | a in xs ensures a.session in SessionsOf(ys) {
      var i :| 0 <= i < |xs| && xs[i] == a;
      assert ys[i] in ys;
    }
    forall b | b in ys ensures b.session in SessionsOf(xs) {
      var i :| 0 <= i < |ys| && ys[i] == b;
      assert xs[i] in xs;
    }
  }

  lemma TimesSeen(xs: seq<Activity>, at: int)
    ensures IsFirst(xs, at) ==> IsFirst(Map(xs, Seen()), at)
    ensures IsLast(xs, at) ==> IsLast(Map(xs, Seen()), at)
  {
    var ys := Map(xs, Seen());
    MapAt(xs, Seen());
    forall b | b in ys ensures exists a | a in xs :: a.at == b.at {
      var i :| 0 <= i < |ys| && ys[i] == b;
      assert xs[i] in xs;
    }
    forall a | a in xs ensures exists b | b in ys :: b.at == a.at {
      var i :| 0 <= i < |xs| && xs[i] == a;
      assert ys[i] in ys;
    }
  }

  lemma RightSeen(facts: map<ScopedFact, Summary>, f: ScopedFact, stating: seq<Activity>)
    requires RightFor(facts, f, stating)
    ensures RightFor(facts, f, Map(stating, Seen()))
  {
    MapAt(stating, Seen());
    if f in facts {
      SessionsSeen(stating);
      EvidenceSeen(stating);
      TimesSeen(stating, facts[f].first);
      TimesSeen(stating, facts[f].last);
    }
  }

  lemma DescribesSeen(facts: map<ScopedFact, Summary>, xs: seq<Activity>, parse: Parser)
    requires Describes(facts, xs, parse)
    ensures Describes(facts, Map(xs, Seen()), parse)
  {
    forall f ensures RightFor(facts, f, Stating(Map(xs, Seen()), f, parse)) {
      StatingSeen(xs, f, parse);
      RightSeen(facts, f, Stating(xs, f, parse));
    }
  }

  /** A profile of some activities is a profile of what it sees of them. */
  lemma ProfileSeen(p: Profile, xs: seq<Activity>, parse: Parser)
    requires IsProfileOf(p, xs, parse)
    ensures IsProfileOf(p, Map(xs, Seen()), parse)
  {
    var kept := Considered(xs);
    SortSeen(xs);
    MapTake(NewestFirst(xs), PROFILE_NODE_LIMIT, Seen());
    assert Considered(Map(xs, Seen())) == Map(kept, Seen());
    MapAt(xs, Seen());
    MapAt(kept, Seen());
    DescribesSeen(p.facts, kept, parse);
    SessionsSeen(kept);
  }

  // ------------------------------------------------------------------ when the order never shows

  ghost predicate TiesAreEqual(xs: seq<Activity>) {
    forall a, b | a in xs && b in xs && Tied(a, b) :: a == b
  }

  lemma {:induction false} NewestIsUnique(xs: seq<Activity>, ys: seq<Activity>)
    requires Newest(xs) && Newest(ys) && multiset(xs) == multiset(ys) && TiesAreEqual(xs)
    ensures xs == ys
  {
    assert |xs| == |multiset(xs)| == |multiset(ys)| == |ys|;
    if xs != [] {
      SameActivities(xs, ys, xs[0]);
      SameActivities(ys, xs, ys[0]);
      assert xs[0] == ys[0] || !Precedes(ys[0], xs[0]);
      assert xs[0] == ys[0] || !Precedes(xs[0], ys[0]);
      StringOrder(xs[0].operation, ys[0].operation);
      assert xs[0] == ys[0];
      assert xs == [xs[0]] + xs[1..] && ys == [ys[0]] + ys[1..];
      assert multiset(xs[1..]) == multiset(xs) - multiset{xs[0]};
      assert multiset(ys[1..]) == multiset(ys) - multiset{ys[0]};
      assert forall a | a in xs[1..] :: a in xs;
      NewestIsUnique(xs[1..], ys[1..]);
    }
  }

  lemma UniqueOnceEqual(xs: seq<Activity>, ys: seq<Activity>, parse: Parser, p: Profile, q: Profile)
    requires multiset(xs) == multiset(ys) && TiesAreEqual(xs)
    requires IsProfileOf(p, xs, parse) && IsProfileOf(q, ys, parse)
    ensures p == q
  {
    SortKeepsActivities(xs);
    SortKeepsActivities(ys);
    SortSortsActivities(xs);
    SortSortsActivities(ys);
    forall a | a in NewestFirst(xs) ensures a in xs {
      SameActivities(NewestFirst(xs), xs, a);
    }
    NewestIsUnique(NewestFirst(xs), NewestFirst(ys));
    assert |xs| == |multiset(xs)| == |multiset(ys)| == |ys|;
    DescriptionIsUnique(p.facts, q.facts, Considered(xs), parse);
  }

  /**
   * Activities the sort does not tell apart look the same to a profile: same reference, both of a
   * customer or neither.
   */
  ghost predicate TiesLookAlike(xs: seq<Activity>) {
    forall a, b | a in xs && b in xs && Tied(a, b) :: Seen()(a) == Seen()(b)
  }

  /** The order in which such activities are given never shows in the profile. */
  lemma ProfileIgnoresInputOrder(xs: seq<Activity>, ys: seq<Activity>, parse: Parser, p: Profile, q: Profile)
    requires multiset(xs) == multiset(ys) && TiesLookAlike(xs)
    requires IsProfileOf(p, xs, parse) && IsProfileOf(q, ys, parse)
    ensures p == q
  {
    var us, vs := Map(xs, Seen()), Map(ys, Seen());
    MapPermutes(xs, ys, Seen());
    MapAt(xs, Seen());
    forall a, b | a in us && b in us && Tied(a, b) ensures a == b {
      var i :| 0 <= i < |us| && us[i] == a;
      var j :| 0 <= j < |us| && us[j] == b;
      assert xs[i] in xs && xs[j] in xs && Tied(xs[i], xs[j]);
    }
    ProfileSeen(p, xs, parse);
    ProfileSeen(q, ys, parse);
    UniqueOnceEqual(us, vs, parse, p, q);
  }

  // ------------------------------------------------------------------ and when it does

  lemma {:induction false} UnorderedStay(xs: seq<Activity>)
    requires forall a, b | a in xs && b in xs :: !Precedes(a, b)
    ensures NewestFirst(xs) == xs
  {
    if xs != [] {
      assert forall a | a in xs[1..] :: a in xs;
      UnorderedStay(xs[1..]);
      if |xs| > 1 {
        assert xs[1] in xs && xs[1..][0] == xs[1];
      }
      assert xs == [xs[0]] + xs[1..];
    }
  }

  lemma TakenInOneByOne(facts: map<ScopedFact, Summary>, xs: seq<Activity>, a: Activity, taken: set<ScopedFact>,
      rest: set<ScopedFact>, parse: Parser)
      returns (updated: map<ScopedFact, Summary>)
    requires Partly(facts, xs, a, taken, parse) && taken + rest == StatedBy(a, parse) && taken !! rest
    ensures Describes(updated, xs + [a], parse)
    decreases |rest|
  {
    if rest == {} {
      assert taken == StatedBy(a, parse);
      AllTakenIn(facts, xs, a, parse);
      updated := facts;
    } else {
      var f :| f in rest;
      TakesIn(facts, xs, a, taken, f, parse);
      updated := TakenInOneByOne(TakenIn(facts, f, a), xs, a, taken + {f}, rest - {f}, parse);
    }
  }

  lemma {:induction false} DescriptionExists(xs: seq<Activity>, parse: Parser) returns (facts: map<ScopedFact, Summary>)
    ensures Describes(facts, xs, parse)
    decreases |xs|
  {
    if xs == [] {
      facts := map[];
    } else {
      var n := |xs| - 1;
      facts := DescriptionExists(xs[..n], parse);
      NoneTakenIn(facts, xs[..n], xs[n], parse);
      facts := TakenInOneByOne(facts, xs[..n], xs[n], {}, StatedBy(xs[n], parse), parse);
      assert xs == xs[..n] + [xs[n]];
    }
  }

  lemma ProfileExists(xs: seq<Activity>, parse: Parser) returns (p: Profile)
    ensures IsProfileOf(p, xs, parse)
  {
    var kept := Considered(xs);
    var facts := DescriptionExists(kept, parse);
    var last := if kept == [] then None else Some(kept[0].at);
    p := Profile(SessionsOf(kept), |kept|, |xs| > PROFILE_NODE_LIMIT, last, facts);
  }

  /** A fact is in a profile exactly when some activity considered states it. */
  lemma InProfileIff(p: Profile, xs: seq<Activity>, parse: Parser, f: ScopedFact)
    requires IsProfileOf(p, xs, parse)
    ensures f in p.facts <==> exists a | a in Considered(xs) :: f in StatedBy(a, parse)
  {
    var kept := Considered(xs);
    WhereMembers(kept, States(f, parse));
    assert RightFor(p.facts, f, Stating(kept, f, parse));
    if f in p.facts {
      var a :| a in Stating(kept, f, parse) && a.at == p.facts[f].first;
    }
  }

  /** A parser that reads every operation as one fact that belongs to the session it was seen in. */
  function OneFact(): Parser {
    (operation: string) => [Parsed(Fact("", "", "", "", "", None, ""), None)]
  }

  lemma OneFactStated(a: Activity)
    ensures StatedBy(a, OneFact()) == {Scoped(a, OneFact()(a.operation)[0])}
  {}

  /** Tied activities that look different show which came first once the limit cuts one of them off. */
  lemma CutTieShows(a: Activity, b: Activity) returns (xs: seq<Activity>, ys: seq<Activity>, p: Profile, q: Profile)
    requires Tied(a, b) && Seen()(a) != Seen()(b)
    ensures multiset(xs) == multiset(ys) && forall x | x in xs :: x == a || x == b
    ensures IsProfileOf(p, xs, OneFact()) && IsProfileOf(q, ys, OneFact()) && p != q
  {
    var copies := seq(PROFILE_NODE_LIMIT, (i: nat) => a);
    xs, ys := copies + [b], [b] + copies;
    p := ProfileExists(xs, OneFact());
    q := ProfileExists(ys, OneFact());
    StringOrder(a.operation, a.operation);
    UnorderedStay(xs);
    UnorderedStay(ys);
    assert Considered(xs) == copies;
    assert Considered(ys)[0] == b;
    NotStatedByCopies(p, xs, a, b);
    StatedByFirst(q, ys, b);
  }

  /** What `b` states, if every operation is one fact. */
  function FactOf(b: Activity): ScopedFact {
    Scoped(b, OneFact()(b.operation)[0])
  }

  lemma NotStatedByCopies(p: Profile, xs: seq<Activity>, a: Activity, b: Activity)
    requires IsProfileOf(p, xs, OneFact()) && Tied(a, b) && Seen()(a) != Seen()(b)
    requires forall x | x in Considered(xs) :: x == a
    ensures FactOf(b) !in p.facts
  {
    OneFactStated(a);
    OneFactStated(b);
    InProfileIff(p, xs, OneFact(), FactOf(b));
  }

  lemma StatedByFirst(q: Profile, ys: seq<Activity>, b: Activity)
    requires IsProfileOf(q, ys, OneFact()) && Considered(ys) != [] && Considered(ys)[0] == b
    ensures FactOf(b) in q.facts
  {
    OneFactStated(b);
    InProfileIff(q, ys, OneFact(), FactOf(b));
  }

  /** Whatever activities of a kind are given, their order never shows in a profile. */
  ghost predicate OrderNeverShows(may: Activity -> bool) {
    forall xs, ys, parse, p, q |
      (forall a | a in xs :: may(a)) && multiset(xs) == multiset(ys) && IsProfileOf(p, xs, parse)
          && IsProfileOf(q, ys, parse) :: p == q
  }

  /** That is so exactly when activities of the kind that the sort does not tell apart look the same. */
  lemma OrderNeverShowsIff(may: Activity -> bool)
    ensures OrderNeverShows(may) <==> forall a, b | may(a) && may(b) && Tied(a, b) :: Seen()(a) == Seen()(b)
  {
    if a, b :| may(a) && may(b) && Tied(a, b) && Seen()(a) != Seen()(b) {
      var xs, ys, p, q := CutTieShows(a, b);
      assert !OrderNeverShows(may);
    } else {
      forall xs, ys, parse, p, q |
        (forall a | a in xs :: may(a)) && multiset(xs) == multiset(ys) && IsProfileOf(p, xs, parse)
            && IsProfileOf(q, ys, parse)
        ensures p == q
      {
        ProfileIgnoresInputOrder(xs, ys, parse, p, q);
      }
    }
  }

  /**
   * Two activities are enough: one session under two references at one time, and any parser
   * that reads their operation as a single customer-wide fact.
   */
  lemma OrderCanShow(parse: Parser, operation: string, fact: Fact, ref: string, other: string)
      returns (xs: seq<Activity>, ys: seq<Activity>, p: Profile, q: Profile)
    requires parse(operation) == [Parsed(fact, None)] && IsCustomerWide(fact) && ref != other
    ensures multiset(xs) == multiset(ys) && IsProfileOf(p, xs, parse) && IsProfileOf(q, ys, parse) && p != q
  {
    var a, b := Activity(1, ref, ref, operation, 0), Activity(1, other, other, operation, 0);
    StringOrder(operation, operation);
    xs, ys := [a, b], [b, a];
    p := TwoStatements(a, b, fact, parse);
    q := TwoStatements(b, a, fact, parse);
    var f := ScopedFact(fact, Customer);
    assert p.facts[f].evidence[0] != q.facts[f].evidence[0];
  }

  lemma StatesOne(a: Activity, fact: Fact, parse: Parser)
    requires parse(a.operation) == [Parsed(fact, None)] && IsCustomerWide(fact)
    ensures StatedBy(a, parse) == {ScopedFact(fact, Customer)}
  {
    var p := Parsed(fact, None);
    assert p in parse(a.operation) && Scoped(a, p) == ScopedFact(fact, Customer);
  }

  lemma TwoStatements(a: Activity, b: Activity, fact: Fact, parse: Parser) returns (p: Profile)
    requires parse(a.operation) == [Parsed(fact, None)] && parse(b.operation) == [Parsed(fact, None)]
    requires IsCustomerWide(fact) && !Precedes(a, b) && !Precedes(b, a)
    ensures IsProfileOf(p, [a, b], parse)
    ensures var f := ScopedFact(fact, Customer);
            f in p.facts && p.facts[f].evidence != [] && p.facts[f].evidence[0] == EvidenceOf()(a)
  {
    var f := ScopedFact(fact, Customer);
    var kept := [a, b];
    StringOrder(a.operation, a.operation);
    StringOrder(b.operation, b.operation);
    UnorderedStay(kept);
    var facts := TakenIn(TakenIn(map[], f, a), f, b);
    assert [a] + [b] == kept;
    FreshSummarizes(a);
    ExtendedSummarizes(Fresh(a), [a], b);
    StatesOne(a, fact, parse);
    StatesOne(b, fact, parse);
    forall g ensures RightFor(facts, g, Stating(kept, g, parse)) {
      StatingJoin([], a, g, parse);
      StatingJoin([a], b, g, parse);
      assert [] + [a] == [a];
    }
    p := Profile(SessionsOf(kept), 2, false, Some(a.at), facts);
  }
}
