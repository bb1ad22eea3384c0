/** The observed customer profile: one pass over the newest activities, and what it computes. */
module CustomerProfile {
  import opened Basics
  import opened Numerals
  import opened RankedLists
  import opened StringOrders

  const MAX_FACT_EVIDENCE := 3
  const PROFILE_NODE_LIMIT := 5000

  datatype Activity = Activity(session: nat, ref: string, source: string, operation: string, at: int)

  datatype Fact = Fact(domain: string, key: string, name: string, value: string, kind: string,
      strength: Option<string>, status: string)

  datatype Parsed = Parsed(fact: Fact, itemRef: Option<string>)

  datatype Scope = Customer | Item(ref: string) | Journey(ref: string) | Session(ref: string)

  datatype ScopedFact = ScopedFact(fact: Fact, scope: Scope)

  datatype Evidence = Evidence(session: nat, ref: string, operation: string, at: int)

  datatype Summary = Summary(sessions: set<nat>, count: nat, first: int, last: int, evidence: seq<Evidence>)

  datatype Profile = Profile(
    sessions: set<nat>,
    activities: nat,
    truncated: bool,
    last: Option<int>,
    facts: map<ScopedFact, Summary>)

  /** How an operation path is read; the vocabulary is not part of this model. */
  type Parser = string -> seq<Parsed>

  // ------------------------------------------------------------------ scopes

  /** The part of a key after its last dot. */
  function LastPart(key: string): string {
    if '.' in key then LastPart(key[1..]) else key
  }

  predicate IsCustomerWide(fact: Fact) {
    LastPart(fact.key) == "household" || LastPart(fact.key) == "pets"
  }

  function FactScope(a: Activity, p: Parsed): Scope {
    if IsCustomerWide(p.fact) then Customer
    else if p.itemRef.Some? then Item(p.itemRef.value)
    else if a.source == "customer" then Journey(a.ref)
    else Session(a.ref)
  }

  function Scoped(a: Activity, p: Parsed): ScopedFact {
    ScopedFact(p.fact, FactScope(a, p))
  }

  /** The scoped facts an activity states, each once. */
  function StatedBy(a: Activity, parse: Parser): set<ScopedFact> {
    set p | p in parse(a.operation) :: Scoped(a, p)
  }

  function States(f: ScopedFact, parse: Parser): Activity -> bool {
    (a: Activity) => f in StatedBy(a, parse)
  }

  // ------------------------------------------------------------------ what a summary means

  function SessionOf(): Activity -> nat {
    (a: Activity) => a.session
  }

  function EvidenceOf(): Activity -> Evidence {
    (a: Activity) => Evidence(a.session, a.ref, a.operation, a.at)
  }

  function SessionsOf(xs: seq<Activity>): set<nat> {
    set a | a in xs :: a.session
  }

  predicate IsFirst(xs: seq<Activity>, at: int) {
    (forall a | a in xs :: at <= a.at) && exists a | a in xs :: a.at == at
  }

  predicate IsLast(xs: seq<Activity>, at: int) {
    (forall a | a in xs :: a.at <= at) && exists a | a in xs :: a.at == at
  }

  /** The activities that state a fact, in the order given. */
  function Stating(xs: seq<Activity>, f: ScopedFact, parse: Parser): seq<Activity> {
    Where(xs, States(f, parse))
  }

  /** The first activities of the first three sessions. */
  function EvidenceFor(xs: seq<Activity>): seq<Evidence> {
    Map(Take(FirstOfEach(xs, SessionOf(), {}), MAX_FACT_EVIDENCE), EvidenceOf())
  }

  /** A summary says of the activities that state a fact how many they are, and so on. */
  ghost predicate Summarizes(s: Summary, stating: seq<Activity>) {
    && s.count == |stating|
    && s.sessions == SessionsOf(stating)
    && IsFirst(stating, s.first)
    && IsLast(stating, s.last)
    && s.evidence == EvidenceFor(stating)
  }

  /** A fact has a summary exactly when something states it, and then the right one. */
  ghost predicate RightFor(facts: map<ScopedFact, Summary>, f: ScopedFact, stating: seq<Activity>) {
    if f in facts then Summarizes(facts[f], stating) else stating == []
  }

  ghost predicate Describes(facts: map<ScopedFact, Summary>, xs: seq<Activity>, parse: Parser) {
    forall f :: RightFor(facts, f, Stating(xs, f, parse))
  }

  lemma SummaryIsUnique(s: Summary, t: Summary, stating: seq<Activity>)
    requires Summarizes(s, stating) && Summarizes(t, stating)
    ensures s == t
  {
    var a :| a in stating && a.at == s.first;
    var b :| b in stating && b.at == t.first;
    var c :| c in stating && c.at == s.last;
    var d :| d in stating && d.at == t.last;
  }

  lemma RightIsUnique(a: map<ScopedFact, Summary>, b: map<ScopedFact, Summary>, f: ScopedFact, stating: seq<Activity>)
    requires RightFor(a, f, stating) && RightFor(b, f, stating)
    ensures (f in a <==> f in b) && (f in a ==> a[f] == b[f])
  {
    if f in a && f in b {
      SummaryIsUnique(a[f], b[f], stating);
    }
  }

  /** A list of activities has only one description. */
  lemma DescriptionIsUnique(a: map<ScopedFact, Summary>, b: map<ScopedFact, Summary>, xs: seq<Activity>, parse: Parser)
    requires Describes(a, xs, parse) && Describes(b, xs, parse)
    ensures a == b
  {
    forall f ensures (f in a <==> f in b) && (f in a ==> a[f] == b[f]) {
      RightIsUnique(a, b, f, Stating(xs, f, parse));
    }
    assert a.Keys == b.Keys;
  }

  // ------------------------------------------------------------------ one more activity

  function Fresh(a: Activity): Summary {
    Summary({a.session}, 1, a.at, a.at, [EvidenceOf()(a)])
  }

  predicate HasSession(evidence: seq<Evidence>, session: nat) {
    exists e | e in evidence :: e.session == session
  }

  function Extended(s: Summary, a: Activity): Summary {
    Summary(
      s.sessions + {a.session},
      s.count + 1,
      if a.at < s.first then a.at else s.first,
      if s.last < a.at then a.at else s.last,
      if |s.evidence| < MAX_FACT_EVIDENCE && !HasSession(s.evidence, a.session)
      then s.evidence + [EvidenceOf()(a)] else s.evidence)
  }

  lemma {:induction false} FirstOfEachJoin(xs: seq<Activity>, a: Activity, seen: set<nat>)
    ensures FirstOfEach(xs + [a], SessionOf(), seen)
            == FirstOfEach(xs, SessionOf(), seen)
                + (if a.session in seen || a.session in SessionsOf(xs) then [] else [a])
  {
    if xs == [] {
      assert xs + [a] == [a] && [a][1..] == [];
    } else {
      assert (xs + [a])[1..] == xs[1..] + [a];
      var later := if xs[0].session in seen then seen else seen + {xs[0].session};
      FirstOfEachJoin(xs[1..], a, later);
      assert SessionsOf(xs) == {xs[0].session} + SessionsOf(xs[1..]);
    }
  }

  lemma {:induction false} MapMembers(xs: seq<Activity>)
    ensures |Map(xs, EvidenceOf())| == |xs|
    ensures forall i | 0 <= i < |xs| :: Map(xs, EvidenceOf())[i] == EvidenceOf()(xs[i])
  {
    if xs != [] {
      MapMembers(xs[1..]);
    }
  }

  lemma {:induction false} FirstOfEachCovers(xs: seq<Activity>, seen: set<nat>)
    ensures SessionsOf(FirstOfEach(xs, SessionOf(), seen)) == SessionsOf(xs) - seen
  {
    if xs != [] {
      var later := if xs[0].session in seen then seen else seen + {xs[0].session};
      FirstOfEachCovers(xs[1..], later);
      assert SessionsOf(xs) == {xs[0].session} + SessionsOf(xs[1..]);
      var rest := FirstOfEach(xs[1..], SessionOf(), later);
      assert xs[0].session !in seen ==> SessionsOf([xs[0]] + rest) == {xs[0].session} + SessionsOf(rest);
    }
  }

  lemma EvidenceSessions(firsts: seq<Activity>, session: nat)
    requires |firsts| <= MAX_FACT_EVIDENCE
    ensures HasSession(Map(firsts, EvidenceOf()), session) <==> session in SessionsOf(firsts)
  {
    MapMembers(firsts);
    if session in SessionsOf(firsts) {
      var i :| 0 <= i < |firsts| && firsts[i].session == session;
      assert Map(firsts, EvidenceOf())[i] in Map(firsts, EvidenceOf());
    }
    if HasSession(Map(firsts, EvidenceOf()), session) {
      var i :| 0 <= i < |firsts| && Map(firsts, EvidenceOf())[i].session == session;
      assert firsts[i] in firsts;
    }
  }

  lemma EvidenceExtends(stating: seq<Activity>, a: Activity)
    ensures EvidenceFor(stating + [a])
            == (if |EvidenceFor(stating)| < MAX_FACT_EVIDENCE && !HasSession(EvidenceFor(stating), a.session)
                then EvidenceFor(stating) + [EvidenceOf()(a)] else EvidenceFor(stating))
  {
    var firsts := FirstOfEach(stating, SessionOf(), {});
    FirstOfEachJoin(stating, a, {});
    FirstOfEachCovers(stating, {});
    assert SessionsOf(firsts) == SessionsOf(stating);
    MapMembers(Take(firsts, MAX_FACT_EVIDENCE));
    if |firsts| < MAX_FACT_EVIDENCE {
      assert Take(firsts, MAX_FACT_EVIDENCE) == firsts && Take(firsts + [a], MAX_FACT_EVIDENCE) == firsts + [a];
      assert firsts + [] == firsts;
      EvidenceSessions(firsts, a.session);
      MapJoin(firsts, [a], EvidenceOf());
      OneEvidence(a);
    } else {
      assert Take(firsts + [a], MAX_FACT_EVIDENCE) == Take(firsts, MAX_FACT_EVIDENCE);
    }
  }

  lemma OneEvidence(a: Activity)
    ensures Map([a], EvidenceOf()) == [EvidenceOf()(a)]
  {
    assert [a][1..] == [];
  }

  /** Extending a summary summarises one more activity. */
  lemma ExtendedSummarizes(s: Summary, stating: seq<Activity>, a: Activity)
    requires Summarizes(s, stating)
    ensures Summarizes(Extended(s, a), stating + [a])
  {
    var more := stating + [a];
    assert a in more && forall x | x in stating :: x in more;
    assert forall x | x in more :: x in stating || x == a;
    assert SessionsOf(more) == SessionsOf(stating) + {a.session};
    EvidenceExtends(stating, a);
  }

  lemma FreshSummarizes(a: Activity)
    ensures Summarizes(Fresh(a), [a])
  {
    assert a in [a] && SessionsOf([a]) == {a.session};
    assert [a][1..] == [];
    EvidenceExtends([], a);
    assert [] + [a] == [a];
  }

  lemma StatingJoin(xs: seq<Activity>, a: Activity, f: ScopedFact, parse: Parser)
    ensures Stating(xs + [a], f, parse)
            == if f in StatedBy(a, parse) then Stating(xs, f, parse) + [a] else Stating(xs, f, parse)
  {
    WhereJoin(xs, [a], States(f, parse));
    assert [a][1..] == [];
  }

  // ------------------------------------------------------------------ the pass

  /** Who states a fact once some facts of one more activity have been taken in. */
  function StatingWith(xs: seq<Activity>, a: Activity, taken: set<ScopedFact>, f: ScopedFact,
      parse: Parser): seq<Activity> {
    if f in taken then Stating(xs, f, parse) + [a] else Stating(xs, f, parse)
  }

  ghost predicate Partly(facts: map<ScopedFact, Summary>, xs: seq<Activity>, a: Activity, taken: set<ScopedFact>,
      parse: Parser) {
    forall f :: RightFor(facts, f, StatingWith(xs, a, taken, f, parse))
  }

  function TakenIn(facts: map<ScopedFact, Summary>, f: ScopedFact, a: Activity): map<ScopedFact, Summary> {
    facts[f := if f in facts then Extended(facts[f], a) else Fresh(a)]
  }

  lemma RightExtends(facts: map<ScopedFact, Summary>, f: ScopedFact, stating: seq<Activity>, a: Activity)
    requires RightFor(facts, f, stating)
    ensures RightFor(TakenIn(facts, f, a), f, stating + [a])
  {
    if f in facts {
      ExtendedSummarizes(facts[f], stating, a);
    } else {
      FreshSummarizes(a);
      assert stating + [a] == [a];
    }
  }

  lemma TakesIn(facts: map<ScopedFact, Summary>, xs: seq<Activity>, a: Activity, taken: set<ScopedFact>, f: ScopedFact,
      parse: Parser)
    requires Partly(facts, xs, a, taken, parse) && f !in taken
    ensures Partly(TakenIn(facts, f, a), xs, a, taken + {f}, parse)
  {
    forall g ensures RightFor(TakenIn(facts, f, a), g, StatingWith(xs, a, taken + {f}, g, parse)) {
      assert RightFor(facts, g, StatingWith(xs, a, taken, g, parse));
      if g == f {
        RightExtends(facts, f, Stating(xs, f, parse), a);
      }
    }
  }

  lemma AllTakenIn(facts: map<ScopedFact, Summary>, xs: seq<Activity>, a: Activity, parse: Parser)
    requires Partly(facts, xs, a, StatedBy(a, parse), parse)
    ensures Describes(facts, xs + [a], parse)
  {
    forall f ensures RightFor(facts, f, Stating(xs + [a], f, parse)) {
      StatingJoin(xs, a, f, parse);
      assert RightFor(facts, f, StatingWith(xs, a, StatedBy(a, parse), f, parse));
    }
  }

  lemma NoneTakenIn(facts: map<ScopedFact, Summary>, xs: seq<Activity>, a: Activity, parse: Parser)
    requires Describes(facts, xs, parse)
    ensures Partly(facts, xs, a, {}, parse)
  {
    forall f ensures RightFor(facts, f, StatingWith(xs, a, {}, f, parse)) {
      assert RightFor(facts, f, Stating(xs, f, parse));
    }
  }

  method TakeInActivity(facts: map<ScopedFact, Summary>, ghost xs: seq<Activity>, a: Activity, parse: Parser)
    returns (updated: map<ScopedFact, Summary>)
    requires Describes(facts, xs, parse)
    ensures Describes(updated, xs + [a], parse)
  {
    updated := facts;
    var inActivity: set<ScopedFact> := {};
    var parsed := parse(a.operation);
    NoneTakenIn(facts, xs, a, parse);
    for i := 0 to |parsed|
      invariant inActivity == set p | p in parsed[..i] :: Scoped(a, p)
      invariant Partly(updated, xs, a, inActivity, parse)
    {
      var seed := Scoped(a, parsed[i]);
      assert parsed[..i + 1] == parsed[..i] + [parsed[i]];
      if seed !in inActivity {
        TakesIn(updated, xs, a, inActivity, seed, parse);
        inActivity := inActivity + {seed};
        updated := TakenIn(updated, seed, a);
      }
    }
    assert parsed[..|parsed|] == parsed;
    AllTakenIn(updated, xs, a, parse);
  }

  /** One pass over the activities gives the description of them all. */
  method Accumulate(xs: seq<Activity>, parse: Parser) returns (facts: map<ScopedFact, Summary>)
    ensures Describes(facts, xs, parse)
  {
    facts := map[];
    for i := 0 to |xs|
      invariant Describes(facts, xs[..i], parse)
    {
      assert xs[..i + 1] == xs[..i] + [xs[i]];
      facts := TakeInActivity(facts, xs[..i], xs[i], parse);
    }
    assert xs[..|xs|] == xs;
  }

  // ------------------------------------------------------------------ newest first

  /** Newer first, then the larger session, then the larger operation. */
  predicate Precedes(a: Activity, b: Activity) {
    || a.at > b.at
    || (a.at == b.at && a.session > b.session)
    || (a.at == b.at && a.session == b.session && StringLess(b.operation, a.operation))
  }

  lemma PrecedesIsTransitive(a: Activity, b: Activity, c: Activity)
    requires !Precedes(b, a) && !Precedes(c, b)
    ensures !Precedes(c, a)
  {
    StringOrder(a.operation, b.operation);
    StringOrder(b.operation, c.operation);
    StringOrder(a.operation, c.operation);
    if StringLess(a.operation, c.operation) && !StringLess(a.operation, b.operation) && a.operation != b.operation {
      StringOrderIsTransitive(b.operation, a.operation, c.operation);
    }
    if StringLess(a.operation, c.operation) && !StringLess(b.operation, c.operation) && b.operation != c.operation {
      StringOrderIsTransitive(a.operation, c.operation, b.operation);
    }
  }

  function InsertActivity(a: Activity, xs: seq<Activity>): seq<Activity> {
    if xs == [] then [a]
    else if Precedes(xs[0], a) then [xs[0]] + InsertActivity(a, xs[1..])
    else [a] + xs
  }

  /** The stable sort of the activities. */
  function NewestFirst(xs: seq<Activity>): seq<Activity> {
    if xs == [] then [] else InsertActivity(xs[0], NewestFirst(xs[1..]))
  }

  ghost predicate Newest(xs: seq<Activity>) {
    xs == [] || ((forall y | y in xs[1..] :: !Precedes(y, xs[0])) && Newest(xs[1..]))
  }

  lemma {:induction false} InsertKeepsActivities(a: Activity, xs: seq<Activity>)
    ensures multiset(InsertActivity(a, xs)) == multiset{a} + multiset(xs)
  {
    if xs != [] && Precedes(xs[0], a) {
      InsertKeepsActivities(a, xs[1..]);
      assert xs == [xs[0]] + xs[1..];
    }
  }

  lemma {:induction false} SortKeepsActivities(xs: seq<Activity>)
    ensures multiset(NewestFirst(xs)) == multiset(xs)
  {
    if xs != [] {
      SortKeepsActivities(xs[1..]);
      InsertKeepsActivities(xs[0], NewestFirst(xs[1..]));
      assert xs == [xs[0]] + xs[1..];
    }
  }

  lemma NewestCons(a: Activity, xs: seq<Activity>)
    requires Newest(xs) && forall y | y in xs :: !Precedes(y, a)
    ensures Newest([a] + xs)
  {
    assert ([a] + xs)[1..] == xs;
  }

  lemma SameActivities(xs: seq<Activity>, ys: seq<Activity>, y: Activity)
    requires multiset(xs) == multiset(ys) && y in xs
    ensures y in ys
  {
    assert y in multiset(xs);
  }

  lemma {:induction false} InsertSortsActivities(a: Activity, xs: seq<Activity>)
    requires Newest(xs)
    ensures Newest(InsertActivity(a, xs))
  {
    if xs == [] {
    } else if Precedes(xs[0], a) {
      var rest := InsertActivity(a, xs[1..]);
      InsertSortsActivities(a, xs[1..]);
      InsertKeepsActivities(a, xs[1..]);
      forall y | y in rest ensures !Precedes(y, xs[0]) {
        SameActivities(rest, [a] + xs[1..], y);
        StringOrder(a.operation, xs[0].operation);
      }
      NewestCons(xs[0], rest);
    } else {
      forall y | y in xs ensures !Precedes(y, a) {
        if y != xs[0] {
          assert y in xs[1..];
          PrecedesIsTransitive(a, xs[0], y);
        }
      }
      NewestCons(a, xs);
    }
  }

  lemma {:induction false} SortSortsActivities(xs: seq<Activity>)
    ensures Newest(NewestFirst(xs))
  {
    if xs != [] {
      SortSortsActivities(xs[1..]);
      InsertSortsActivities(xs[0], NewestFirst(xs[1..]));
    }
  }

  // ------------------------------------------------------------------ the profile

  function Considered(xs: seq<Activity>): seq<Activity> {
    Take(NewestFirst(xs), PROFILE_NODE_LIMIT)
  }

  /** The profile says of the newest activities what they state, and how far they reach. */
  ghost predicate IsProfileOf(p: Profile, xs: seq<Activity>, parse: Parser) {
    var kept := Considered(xs);
    && Describes(p.facts, kept, parse)
    && p.sessions == SessionsOf(kept)
    && p.activities == |kept|
    && p.truncated == (|xs| > PROFILE_NODE_LIMIT)
    && p.last == (if kept == [] then None else Some(kept[0].at))
  }

  method DeriveProfile(xs: seq<Activity>, parse: Parser) returns (p: Profile)
    ensures IsProfileOf(p, xs, parse)
  {
    var kept := Considered(xs);
    SortKeepsActivities(xs);
    assert |NewestFirst(xs)| == |multiset(NewestFirst(xs))| == |multiset(xs)| == |xs|;
    var facts := Accumulate(kept, parse);
    p := Profile(SessionsOf(kept), |kept|, |NewestFirst(xs)| > PROFILE_NODE_LIMIT,
                 if kept == [] then None else Some(kept[0].at), facts);
  }

  lemma {:induction false} NewestPairs(xs: seq<Activity>, i: nat, j: nat)
    requires Newest(xs) && i < j < |xs|
    ensures !Precedes(xs[j], xs[i])
  {
    if i == 0 {
      assert xs[j] == xs[1..][j - 1];
    } else {
      NewestPairs(xs[1..], i - 1, j - 1);
    }
  }

  /** No activity left out is newer than one considered. */
  lemma NewestAreConsidered(xs: seq<Activity>, i: nat, j: nat)
    requires i < |Considered(xs)| <= j < |NewestFirst(xs)|
    ensures Considered(xs)[i].at >= NewestFirst(xs)[j].at
    ensures Considered(xs)[0].at >= Considered(xs)[i].at
  {
    SortSortsActivities(xs);
    NewestPairs(NewestFirst(xs), i, j);
    if i > 0 {
      NewestPairs(NewestFirst(xs), 0, i);
    }
  }

  // ------------------------------------------------------------------ amounts

  /** The rest of a number, with a comma in front of every group of three but the first. */
  function Grouped(digits: string, first: bool): string {
    if digits == "" then ""
    else (if !first && |digits| % 3 == 0 then "," else "") + [digits[0]] + Grouped(digits[1..], false)
  }

  method FormatNumber(n: nat) returns (rendered: string)
    ensures rendered == Grouped(Digits(n), true)
  {
    var digits := Digits(n);
    rendered := "";
    assert digits[0..] == digits;
    for index := 0 to |digits|
      invariant rendered + Grouped(digits[index..], index == 0) == Grouped(digits, true)
    {
      assert digits[index..][1..] == digits[index + 1..];
      if index > 0 && (|digits| - index) % 3 == 0 {
        rendered := rendered + ",";
      }
      rendered := rendered + [digits[index]];
    }
    assert digits[|digits|..] == "";
  }

  function WithoutCommas(s: string): string {
    if s == "" then "" else (if s[0] == ',' then "" else [s[0]]) + WithoutCommas(s[1..])
  }

  lemma {:induction false} CommasOnlyAdded(digits: string, first: bool)
    requires ',' !in digits
    ensures WithoutCommas(Grouped(digits, first)) == digits
  {
    if digits != "" {
      var rest := Grouped(digits[1..], false);
      var tail := [digits[0]] + rest;
      CommasOnlyAdded(digits[1..], false);
      assert digits[0] in digits && digits == [digits[0]] + digits[1..];
      assert tail[1..] == rest && ([','] + tail)[1..] == tail;
      assert Grouped(digits, first) == if !first && |digits| % 3 == 0 then [','] + tail else tail;
    }
  }

  /** A comma at every fourth place from the end. */
  predicate EveryFourth(s: string) {
    forall d | 0 <= d < |s| :: s[|s| - 1 - d] == ',' <==> d % 4 == 3
  }

  lemma EveryFourthCons(c: char, s: string)
    requires EveryFourth(s) && (c == ',' <==> |s| % 4 == 3)
    ensures EveryFourth([c] + s)
  {
    var t := [c] + s;
    forall d | 0 <= d < |t| ensures t[|t| - 1 - d] == ',' <==> d % 4 == 3 {
      if d < |s| {
        assert t[|t| - 1 - d] == s[|s| - 1 - d];
      }
    }
  }

  /** A comma stands in every fourth place from the end, and nowhere else. */
  lemma {:induction false} CommasComeEveryFourth(digits: string, first: bool)
    requires ',' !in digits
    ensures |Grouped(digits, first)|
            == |digits| + (if digits == "" then 0 else (if first then |digits| - 1 else |digits|) / 3)
    ensures EveryFourth(Grouped(digits, first))
  {
    if digits != "" {
      var rest := Grouped(digits[1..], false);
      CommasComeEveryFourth(digits[1..], false);
      assert digits[0] in digits;
      EveryFourthCons(digits[0], rest);
      if !first && |digits| % 3 == 0 {
        EveryFourthCons(',', [digits[0]] + rest);
        assert Grouped(digits, first) == [','] + ([digits[0]] + rest);
      } else {
        assert Grouped(digits, first) == [digits[0]] + rest;
      }
    }
  }

  /** A formatted number reads as the number when its commas are left out. */
  lemma GroupedReads(n: nat)
    ensures Read(WithoutCommas(Grouped(Digits(n), true))) == n && EveryFourth(Grouped(Digits(n), true))
  {
    DigitsRead(n);
    CommasOnlyAdded(Digits(n), true);
    CommasComeEveryFourth(Digits(n), true);
  }
}
