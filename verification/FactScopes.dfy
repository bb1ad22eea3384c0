/** Whom an observed fact is about, which activities state it, and how many of them count. */
module FactScopes {
  import opened Basics
  import opened RankedLists
  import opened CustomerProfile

  predicate Suffix(key: string, tail: string) {
    |tail| <= |key| && key[|key| - |tail|..] == tail
  }

  /** The word is the key's part behind its last dot, or the whole key. */
  predicate EndsIn(key: string, word: string) {
    key == word || Suffix(key, "." + word)
  }

  lemma ShorterSuffix(key: string, tail: string)
    requires |tail| < |key|
    ensures Suffix(key, tail) <==> Suffix(key[1..], tail)
  {
    assert key[|key| - |tail|..] == key[1..][|key[1..]| - |tail|..];
  }

  lemma WholeSuffix(key: string, word: string)
    requires |key| == |word| + 1 && '.' in key && '.' !in word
    ensures Suffix(key, "." + word) <==> key[1..] == word
  {
    assert key[0..] == key && key == [key[0]] + key[1..];
    assert ("." + word)[1..] == word;
  }

  lemma NoDotNoSuffix(key: string, word: string)
    requires '.' !in key
    ensures !Suffix(key, "." + word)
  {
    assert ("." + word)[0] == '.';
    assert |word| < |key| ==> key[|key| - |word| - 1..][0] == key[|key| - |word| - 1];
  }

  lemma {:induction false} LastPartIs(key: string, word: string)
    requires '.' !in word
    ensures LastPart(key) == word <==> EndsIn(key, word)
  {
    if '.' !in key {
      NoDotNoSuffix(key, word);
    } else {
      LastPartIs(key[1..], word);
      if |word| + 1 < |key| {
        ShorterSuffix(key, "." + word);
      } else if |word| + 1 == |key| {
        WholeSuffix(key, word);
      }
    }
  }

  /** Household and pets are the customer's own; else a fact is about its item, its customer journey, or its session. */
  predicate RightScope(a: Activity, p: Parsed, scope: Scope) {
    if EndsIn(p.fact.key, "household") || EndsIn(p.fact.key, "pets") then scope == Customer
    else if p.itemRef.Some? then scope == Item(p.itemRef.value)
    else if a.source == "customer" then scope == Journey(a.ref)
    else scope == Session(a.ref)
  }

  lemma NoDots()
    ensures '.' !in "household" && '.' !in "pets"
  {}

  lemma ScopeIs(a: Activity, p: Parsed, scope: Scope)
    ensures FactScope(a, p) == scope <==> RightScope(a, p, scope)
  {
    NoDots();
    LastPartIs(p.fact.key, "household");
    LastPartIs(p.fact.key, "pets");
  }

  ghost predicate SaysSo(a: Activity, f: ScopedFact, parse: Parser) {
    exists p | p in parse(a.operation) :: p.fact == f.fact && RightScope(a, p, f.scope)
  }

  lemma StatedIff(a: Activity, f: ScopedFact, parse: Parser)
    ensures f in StatedBy(a, parse) <==> SaysSo(a, f, parse)
  {
    if f in StatedBy(a, parse) {
      var p :| p in parse(a.operation) && Scoped(a, p) == f;
      ScopeIs(a, p, f.scope);
    }
    if p :| p in parse(a.operation) && p.fact == f.fact && RightScope(a, p, f.scope) {
      ScopeIs(a, p, f.scope);
      assert Scoped(a, p) == f;
    }
  }

  /** A fact is in the profile exactly when one of the newest 5,000 activities states it. */
  lemma ObservedIffStated(p: Profile, xs: seq<Activity>, parse: Parser, f: ScopedFact)
    requires IsProfileOf(p, xs, parse)
    ensures f in p.facts <==> exists a :: a in Considered(xs) && SaysSo(a, f, parse)
    ensures f in p.facts ==>
              (forall n :: n in p.facts[f].sessions <==>
                 exists a :: a in Considered(xs) && SaysSo(a, f, parse) && a.session == n)
              && (forall a | a in Considered(xs) && SaysSo(a, f, parse) :: p.facts[f].first <= a.at <= p.facts[f].last)
  {
    var stating := Stating(Considered(xs), f, parse);
    assert RightFor(p.facts, f, stating);
    WhereMembers(Considered(xs), States(f, parse));
    forall a ensures a in stating <==> a in Considered(xs) && SaysSo(a, f, parse) {
      StatedIff(a, f, parse);
      assert States(f, parse)(a) <==> f in StatedBy(a, parse);
    }
    assert f in p.facts ==> IsFirst(stating, p.facts[f].first);
  }

  /** The 5,000 newest activities count; the profile says how many there were and whether some were left out. */
  lemma ProfileTells(p: Profile, xs: seq<Activity>, parse: Parser)
    requires IsProfileOf(p, xs, parse)
    ensures p.activities == (if |xs| <= 5000 then |xs| else 5000) && (p.truncated <==> |xs| > 5000)
    ensures if xs == [] then p.last == None
            else p.last.Some? && (forall a | a in xs :: a.at <= p.last.value)
                 && exists a :: a in xs && a.at == p.last.value
  {
    var sorted := NewestFirst(xs);
    SortKeepsActivities(xs);
    assert |sorted| == |multiset(sorted)| == |multiset(xs)| == |xs|;
    if xs != [] {
      SortSortsActivities(xs);
      SameActivities(sorted, xs, sorted[0]);
      forall a | a in xs ensures a.at <= sorted[0].at {
        SameActivities(xs, sorted, a);
        var j :| 0 <= j < |sorted| && sorted[j] == a;
        if j > 0 {
          NewestPairs(sorted, 0, j);
        }
      }
    }
  }
}
