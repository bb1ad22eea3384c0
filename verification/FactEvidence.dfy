/** What the evidence of an observed fact shows of the activities that state it. */
module FactEvidence {
  import opened RankedLists
  import opened CustomerProfile

  function NewerFirst(): (Activity, Activity) -> bool {
    (a: Activity, b: Activity) => a.at >= b.at
  }

  lemma {:induction false} NewestIsNewerFirst(xs: seq<Activity>)
    requires Newest(xs)
    ensures InOrder(xs, NewerFirst())
  {
    if xs != [] {
      NewestIsNewerFirst(xs[1..]);
    }
  }

  lemma {:induction false} FrontStaysInOrder(xs: seq<Activity>, n: nat)
    requires InOrder(xs, NewerFirst()) && n <= |xs|
    ensures InOrder(xs[..n], NewerFirst())
  {
    if n > 0 {
      FrontStaysInOrder(xs[1..], n - 1);
      assert xs[..n][1..] == xs[1..][..n - 1];
      assert forall y | y in xs[1..][..n - 1] :: y in xs[1..];
    }
  }

  /** Distinct sessions, newest first. */
  predicate OnePerSession(firsts: seq<Activity>) {
    forall i, j | 0 <= i < j < |firsts| ::
      firsts[i].session != firsts[j].session && firsts[i].at >= firsts[j].at
  }

  /** Some listed activity of the same session is at least as new. */
  ghost predicate NewerListed(a: Activity, firsts: seq<Activity>) {
    exists x | x in firsts :: x.session == a.session && x.at >= a.at
  }

  lemma {:induction false} FirstsAreOrdered(xs: seq<Activity>, seen: set<nat>)
    requires InOrder(xs, NewerFirst())
    ensures OnePerSession(FirstOfEach(xs, SessionOf(), seen))
  {
    if xs != [] {
      var later := if xs[0].session in seen then seen else seen + {xs[0].session};
      var rest := FirstOfEach(xs[1..], SessionOf(), later);
      FirstsAreOrdered(xs[1..], later);
      KeptAreMembers(xs[1..], SessionOf(), later);
      forall i | 0 <= i < |rest| ensures rest[i].session !in later && xs[0].at >= rest[i].at {
        assert rest[i] in rest && NewerFirst()(xs[0], rest[i]);
      }
    }
  }

  lemma {:induction false} FirstsAreNewest(xs: seq<Activity>, seen: set<nat>)
    requires InOrder(xs, NewerFirst())
    ensures forall a | a in xs && a.session !in seen :: NewerListed(a, FirstOfEach(xs, SessionOf(), seen))
  {
    if xs != [] {
      var later := if xs[0].session in seen then seen else seen + {xs[0].session};
      FirstsAreNewest(xs[1..], later);
      forall a | a in xs && a.session !in seen ensures NewerListed(a, FirstOfEach(xs, SessionOf(), seen)) {
        if a.session in later {
          FirstIsListed(xs, seen, a);
        } else {
          LaterIsListed(xs, seen, a);
        }
      }
    }
  }

  lemma FirstIsListed(xs: seq<Activity>, seen: set<nat>, a: Activity)
    requires InOrder(xs, NewerFirst()) && a in xs && a.session == xs[0].session && a.session !in seen
    ensures NewerListed(a, FirstOfEach(xs, SessionOf(), seen))
  {
    assert a == xs[0] || (a in xs[1..] && NewerFirst()(xs[0], a));
    assert xs[0] in FirstOfEach(xs, SessionOf(), seen);
  }

  lemma LaterIsListed(xs: seq<Activity>, seen: set<nat>, a: Activity)
    requires xs != [] && a.session != xs[0].session
    requires var later := if xs[0].session in seen then seen else seen + {xs[0].session};
             NewerListed(a, FirstOfEach(xs[1..], SessionOf(), later))
    ensures NewerListed(a, FirstOfEach(xs, SessionOf(), seen))
  {
    var later := if xs[0].session in seen then seen else seen + {xs[0].session};
    var x :| x in FirstOfEach(xs[1..], SessionOf(), later) && x.session == a.session && x.at >= a.at;
    assert x in FirstOfEach(xs, SessionOf(), seen);
  }

  lemma {:induction false} AsManyAsSessions(firsts: seq<Activity>)
    requires OnePerSession(firsts)
    ensures |SessionsOf(firsts)| == |firsts|
  {
    if firsts != [] {
      var rest := firsts[1..];
      AsManyAsSessions(rest);
      assert firsts[0].session !in SessionsOf(rest);
      assert SessionsOf(firsts) == {firsts[0].session} + SessionsOf(rest);
    }
  }

  /** Each entry is one of the activities. */
  ghost predicate ActivitiesAmong(evidence: seq<Evidence>, stating: seq<Activity>) {
    forall i | 0 <= i < |evidence| :: EvidenceAmong(evidence[i], stating)
  }

  ghost predicate EvidenceAmong(e: Evidence, stating: seq<Activity>) {
    exists a | a in stating :: e == Evidence(a.session, a.ref, a.operation, a.at)
  }

  /** No entry is older than another activity of its session, or than any of a session left out. */
  ghost predicate NoneIsNewer(evidence: seq<Evidence>, stating: seq<Activity>) {
    forall a, i | a in stating && 0 <= i < |evidence|
      && (a.session == evidence[i].session || !HasSession(evidence, a.session)) :: a.at <= evidence[i].at
  }

  /** The newest activity of each of the newest three sessions, or of all there are. */
  ghost predicate NewestEvidence(evidence: seq<Evidence>, stating: seq<Activity>) {
    && |evidence| == (if |SessionsOf(stating)| < MAX_FACT_EVIDENCE then |SessionsOf(stating)| else MAX_FACT_EVIDENCE)
    && (forall i, j | 0 <= i < j < |evidence| ::
          evidence[i].session != evidence[j].session && evidence[i].at >= evidence[j].at)
    && ActivitiesAmong(evidence, stating)
    && NoneIsNewer(evidence, stating)
  }

  lemma TakenAreNewest(stating: seq<Activity>, firsts: seq<Activity>)
    requires OnePerSession(firsts) && forall a | a in stating :: NewerListed(a, firsts)
    ensures forall a, i | a in stating && 0 <= i < |Take(firsts, MAX_FACT_EVIDENCE)|
              && (a.session == firsts[i].session || a.session !in SessionsOf(Take(firsts, MAX_FACT_EVIDENCE))) ::
              a.at <= firsts[i].at
  {
    var kept := Take(firsts, MAX_FACT_EVIDENCE);
    forall a, i | a in stating && 0 <= i < |kept|
      && (a.session == firsts[i].session || a.session !in SessionsOf(kept))
      ensures a.at <= firsts[i].at
    {
      assert NewerListed(a, firsts);
      var j :| 0 <= j < |firsts| && firsts[j].session == a.session && firsts[j].at >= a.at;
      assert j < |kept| ==> kept[j] in kept;
    }
  }

  /** Evidence is what it was made from, entry by entry. */
  predicate MadeFrom(evidence: seq<Evidence>, kept: seq<Activity>) {
    && |evidence| == |kept|
    && forall i | 0 <= i < |kept| ::
         evidence[i] == Evidence(kept[i].session, kept[i].ref, kept[i].operation, kept[i].at)
  }

  lemma EvidenceIsMade(kept: seq<Activity>)
    ensures MadeFrom(Map(kept, EvidenceOf()), kept)
  {
    MapMembers(kept);
  }

  lemma MadeIsAmong(stating: seq<Activity>, kept: seq<Activity>, evidence: seq<Evidence>)
    requires (forall x | x in kept :: x in stating) && MadeFrom(evidence, kept)
    ensures ActivitiesAmong(evidence, stating)
  {
    forall i | 0 <= i < |evidence| ensures EvidenceAmong(evidence[i], stating) {
      assert kept[i] in kept;
    }
  }

  lemma SessionIsShown(kept: seq<Activity>, evidence: seq<Evidence>, session: nat)
    requires MadeFrom(evidence, kept) && session in SessionsOf(kept)
    ensures HasSession(evidence, session)
  {
    var j :| 0 <= j < |kept| && kept[j].session == session;
    assert evidence[j] in evidence;
  }

  lemma MadeIsNewest(stating: seq<Activity>, firsts: seq<Activity>, evidence: seq<Evidence>)
    requires OnePerSession(firsts) && forall a | a in stating :: NewerListed(a, firsts)
    requires MadeFrom(evidence, Take(firsts, MAX_FACT_EVIDENCE))
    ensures NoneIsNewer(evidence, stating)
  {
    var kept := Take(firsts, MAX_FACT_EVIDENCE);
    TakenAreNewest(stating, firsts);
    forall a, i | a in stating && 0 <= i < |evidence|
      && (a.session == evidence[i].session || !HasSession(evidence, a.session))
      ensures a.at <= evidence[i].at
    {
      assert evidence[i].at == firsts[i].at && evidence[i].session == firsts[i].session;
      if a.session in SessionsOf(kept) {
        SessionIsShown(kept, evidence, a.session);
      }
    }
  }

  lemma MadeIsOrdered(kept: seq<Activity>, evidence: seq<Evidence>)
    requires OnePerSession(kept) && MadeFrom(evidence, kept)
    ensures forall i, j | 0 <= i < j < |evidence| ::
              evidence[i].session != evidence[j].session && evidence[i].at >= evidence[j].at
  {}

  lemma MadeIsAll(stating: seq<Activity>, firsts: seq<Activity>, evidence: seq<Evidence>)
    requires OnePerSession(firsts) && forall a | a in stating :: NewerListed(a, firsts)
    requires forall x | x in firsts :: x in stating
    requires |firsts| == |SessionsOf(stating)| && MadeFrom(evidence, Take(firsts, MAX_FACT_EVIDENCE))
    ensures NewestEvidence(evidence, stating)
  {
    var kept := Take(firsts, MAX_FACT_EVIDENCE);
    MadeIsOrdered(kept, evidence);
    MadeIsAmong(stating, kept, evidence);
    MadeIsNewest(stating, firsts, evidence);
  }

  lemma EvidenceIsNewest(stating: seq<Activity>)
    requires InOrder(stating, NewerFirst())
    ensures NewestEvidence(EvidenceFor(stating), stating)
  {
    var firsts := FirstOfEach(stating, SessionOf(), {});
    FirstsAreOrdered(stating, {});
    FirstsAreNewest(stating, {});
    KeptAreMembers(stating, SessionOf(), {});
    FirstOfEachCovers(stating, {});
    AsManyAsSessions(firsts);
    EvidenceIsMade(Take(firsts, MAX_FACT_EVIDENCE));
    MadeIsAll(stating, firsts, EvidenceFor(stating));
  }

  /** In every profile the evidence of a fact is the newest there is, one activity for each session. */
  lemma FactHasNewestEvidence(p: Profile, xs: seq<Activity>, parse: Parser, f: ScopedFact)
    requires IsProfileOf(p, xs, parse) && f in p.facts
    ensures NewestEvidence(p.facts[f].evidence, Stating(Considered(xs), f, parse))
  {
    SortSortsActivities(xs);
    NewestIsNewerFirst(NewestFirst(xs));
    FrontStaysInOrder(NewestFirst(xs), |Considered(xs)|);
    WhereStaysInOrder(Considered(xs), States(f, parse), NewerFirst());
    assert RightFor(p.facts, f, Stating(Considered(xs), f, parse));
    EvidenceIsNewest(Stating(Considered(xs), f, parse));
  }
}
