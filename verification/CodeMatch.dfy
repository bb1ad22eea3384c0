/** Code-search queries derived from a report, and the ranking of what they find. */
module CodeMatch {
  import opened Basics
  import opened RankedLists
  import I = Identifiers

  const MAX_SEARCH_QUERIES_PER_REPORT := 5
  const MAX_CODE_HINTS_PER_REPORT := 12

  // ------------------------------------------------------------------ seeds

  datatype Source = Operation | RuntimeHint | FindingTopic | FindingKind | Surface

  datatype Reason = ExactIdentifier(source: Source) | WordOf(source: Source)

  datatype Draft = Draft(literal: string, reason: Reason, specificity: nat)

  /** A seed, numbered in the order it was added. */
  datatype Seed = Seed(draft: Draft, order: nat)

  datatype Finding = Finding(kind: string, topic: string)

  datatype Input = Input(operation: string, surface: string, runtimeHint: Option<string>, findings: seq<Finding>)

  function Weight(source: Source): nat {
    match source
    case Operation => 60
    case RuntimeHint => 50
    case FindingTopic => 40
    case FindingKind => 20
    case Surface => 10
  }

  predicate IsUseful(word: string, stop: set<string>) {
    && 3 <= |word| <= 64
    && (exists i | 0 <= i < |word| :: I.IsUpper(word[i]) || I.IsLower(word[i]))
    && word !in stop
  }

  function UsefulCount(words: seq<string>, stop: set<string>): nat {
    if words == [] then 0 else (if IsUseful(words[0], stop) then 1 else 0) + UsefulCount(words[1..], stop)
  }

  function WordDrafts(words: seq<string>, source: Source, stop: set<string>): seq<Draft> {
    if words == [] then []
    else
      (if IsUseful(words[0], stop)
       then [Draft(words[0], WordOf(source), 100 + Weight(source) + |words[0]|)] else [])
      + WordDrafts(words[1..], source, stop)
  }

  function ExactDrafts(run: string, words: seq<string>, source: Source, stop: set<string>): seq<Draft> {
    var useful := UsefulCount(words, stop);
    if |words| >= 2 && useful >= 1
    then [Draft(run, ExactIdentifier(source), 200 + Weight(source) + useful * 10 + |run|)] else []
  }

  function WordsDrafts(run: string, words: seq<string>, source: Source, stop: set<string>): seq<Draft> {
    ExactDrafts(run, words, source, stop) + WordDrafts(words, source, stop)
  }

  function RunDrafts(run: string, source: Source, stop: set<string>): seq<Draft> {
    WordsDrafts(run, I.IdentifierParts(run), source, stop)
  }

  function RunsDrafts(runs: seq<string>, source: Source, stop: set<string>): seq<Draft> {
    if runs == [] then [] else RunDrafts(runs[0], source, stop) + RunsDrafts(runs[1..], source, stop)
  }

  function FieldDrafts(value: string, source: Source, stop: set<string>): seq<Draft> {
    RunsDrafts(I.IdentifierRuns(value), source, stop)
  }

  function FindingDrafts(finding: Finding, stop: set<string>): seq<Draft> {
    FieldDrafts(finding.topic, FindingTopic, stop) + FieldDrafts(finding.kind, FindingKind, stop)
  }

  function FindingsDrafts(findings: seq<Finding>, stop: set<string>): seq<Draft> {
    if findings == [] then [] else FindingDrafts(findings[0], stop) + FindingsDrafts(findings[1..], stop)
  }

  function HintDrafts(hint: Option<string>, stop: set<string>): seq<Draft> {
    if hint.Some? then FieldDrafts(hint.value, RuntimeHint, stop) else []
  }

  function AllDrafts(input: Input, stop: set<string>): seq<Draft> {
    FieldDrafts(input.operation, Operation, stop)
    + HintDrafts(input.runtimeHint, stop)
    + FindingsDrafts(input.findings, stop)
    + FieldDrafts(input.surface, Surface, stop)
  }

  function Numbered(drafts: seq<Draft>): (seeds: seq<Seed>)
    ensures |seeds| == |drafts|
    ensures forall i | 0 <= i < |drafts| :: seeds[i] == Seed(drafts[i], i)
  {
    seq(|drafts|, i requires 0 <= i < |drafts| => Seed(drafts[i], i))
  }

  /** The seeds collected so far. */
  class Seeds {
    var seeds: seq<Seed>
    ghost var drafts: seq<Draft>

    ghost predicate Valid()
      reads this
    {
      seeds == Numbered(drafts)
    }

    constructor ()
      ensures Valid() && drafts == []
    {
      seeds, drafts := [], [];
    }

    method Push(draft: Draft)
      requires Valid()
      modifies this
      ensures Valid() && drafts == old(drafts) + [draft]
    {
      seeds := seeds + [Seed(draft, |seeds|)];
      drafts := drafts + [draft];
    }

    method AddExact(run: string, words: seq<string>, source: Source, stop: set<string>)
      requires Valid()
      modifies this
      ensures Valid() && drafts == old(drafts) + ExactDrafts(run, words, source, stop)
    {
      var useful := UsefulCount(words, stop);
      if |words| >= 2 && useful >= 1 {
        Push(Draft(run, ExactIdentifier(source), 200 + Weight(source) + useful * 10 + |run|));
      }
    }

    method AddWords(words: seq<string>, source: Source, stop: set<string>)
      requires Valid()
      modifies this
      ensures Valid() && drafts == old(drafts) + WordDrafts(words, source, stop)
    {
      ghost var whole := drafts + WordDrafts(words, source, stop);
      assert words[0..] == words;
      for i := 0 to |words|
        invariant Valid() && drafts + WordDrafts(words[i..], source, stop) == whole
      {
        assert words[i..][1..] == words[i + 1..];
        if IsUseful(words[i], stop) {
          Push(Draft(words[i], WordOf(source), 100 + Weight(source) + |words[i]|));
        }
      }
      assert words[|words|..] == [];
    }

    method AddRunWords(run: string, words: seq<string>, source: Source, stop: set<string>)
      requires Valid()
      modifies this
      ensures Valid() && drafts == old(drafts) + WordsDrafts(run, words, source, stop)
    {
      Regroup(drafts, ExactDrafts(run, words, source, stop), WordDrafts(words, source, stop));
      AddExact(run, words, source, stop);
      AddWords(words, source, stop);
    }

    method AddRun(run: string, source: Source, stop: set<string>)
      requires Valid()
      modifies this
      ensures Valid() && drafts == old(drafts) + RunDrafts(run, source, stop)
    {
      var words := I.SplitIdentifier(run);
      AddRunWords(run, words, source, stop);
    }

    method AddField(value: string, source: Source, stop: set<string>)
      requires Valid()
      modifies this
      ensures Valid() && drafts == old(drafts) + FieldDrafts(value, source, stop)
    {
      var runs := I.IdentifierRuns(value);
      ghost var whole := drafts + RunsDrafts(runs, source, stop);
      assert runs[0..] == runs;
      for i := 0 to |runs|
        invariant Valid() && drafts + RunsDrafts(runs[i..], source, stop) == whole
      {
        assert runs[i..][1..] == runs[i + 1..];
        Regroup(drafts, RunDrafts(runs[i], source, stop), RunsDrafts(runs[i + 1..], source, stop));
        AddRun(runs[i], source, stop);
      }
      assert runs[|runs|..] == [];
    }

    method AddFinding(finding: Finding, stop: set<string>)
      requires Valid()
      modifies this
      ensures Valid() && drafts == old(drafts) + FindingDrafts(finding, stop)
    {
      Regroup(drafts, FieldDrafts(finding.topic, FindingTopic, stop), FieldDrafts(finding.kind, FindingKind, stop));
      AddField(finding.topic, FindingTopic, stop);
      AddField(finding.kind, FindingKind, stop);
    }

    method AddFindings(findings: seq<Finding>, stop: set<string>)
      requires Valid()
      modifies this
      ensures Valid() && drafts == old(drafts) + FindingsDrafts(findings, stop)
    {
      ghost var whole := drafts + FindingsDrafts(findings, stop);
      assert findings[0..] == findings;
      for i := 0 to |findings|
        invariant Valid() && drafts + FindingsDrafts(findings[i..], stop) == whole
      {
        NextFinding(findings, i, drafts, stop);
        AddFinding(findings[i], stop);
      }
      assert findings[|findings|..] == [];
    }

    method AddHint(hint: Option<string>, stop: set<string>)
      requires Valid()
      modifies this
      ensures Valid() && drafts == old(drafts) + HintDrafts(hint, stop)
    {
      if hint.Some? {
        AddField(hint.value, RuntimeHint, stop);
      }
    }

    method AddAll(input: Input, stop: set<string>)
      requires Valid() && drafts == []
      modifies this
      ensures Valid() && drafts == AllDrafts(input, stop)
    {
      NothingBefore(FieldDrafts(input.operation, Operation, stop));
      AddField(input.operation, Operation, stop);
      AddHint(input.runtimeHint, stop);
      AddFindings(input.findings, stop);
      AddField(input.surface, Surface, stop);
    }
  }

  lemma NothingBefore<T>(a: seq<T>)
    ensures [] + a == a
  {}

  lemma NextFinding(findings: seq<Finding>, i: nat, front: seq<Draft>, stop: set<string>)
    requires i < |findings|
    ensures front + FindingsDrafts(findings[i..], stop)
            == front + FindingDrafts(findings[i], stop) + FindingsDrafts(findings[i + 1..], stop)
  {
    assert findings[i..][1..] == findings[i + 1..];
    Regroup(front, FindingDrafts(findings[i], stop), FindingsDrafts(findings[i + 1..], stop));
  }

  // ------------------------------------------------------------------ queries

  function Specificity(): Seed -> int {
    (s: Seed) => s.draft.specificity
  }

  function AddedBefore(): (Seed, Seed) -> bool {
    (a: Seed, b: Seed) => a.order < b.order
  }

  function LiteralKey(): Seed -> string {
    (s: Seed) => I.Lowercase(s.draft.literal)
  }

  function DeriveQueries(input: Input, stop: set<string>): seq<Seed> {
    TopDistinct(Numbered(AllDrafts(input, stop)), Specificity(), LiteralKey(), MAX_SEARCH_QUERIES_PER_REPORT)
  }

  method DeriveSearchQueries(input: Input, stop: set<string>) returns (queries: seq<Seed>)
    ensures queries == DeriveQueries(input, stop)
  {
    var seeds := new Seeds();
    seeds.AddAll(input, stop);
    queries := KeepFirstOfEach(StableSort(seeds.seeds, Specificity()), LiteralKey(), MAX_SEARCH_QUERIES_PER_REPORT);
  }

  lemma {:induction false} NumberedInOrder(seeds: seq<Seed>, first: nat)
    requires forall i | 0 <= i < |seeds| :: seeds[i].order == first + i
    ensures InOrder(seeds, AddedBefore())
  {
    if seeds != [] {
      forall y | y in seeds[1..] ensures seeds[0].order < y.order {
        var i :| 0 <= i < |seeds| - 1 && seeds[1..][i] == y;
      }
      assert forall i | 0 <= i < |seeds| - 1 :: seeds[1..][i] == seeds[i + 1];
      NumberedInOrder(seeds[1..], first + 1);
    }
  }

  /**
   * At most five queries with literals distinct up to case, most specific first; each is the
   * most specific and then earliest seed of its literal; and a seed whose literal is left
   * out comes after every query, and only when there are five.
   */
  lemma QueriesAreTheBestSeeds(input: Input, stop: set<string>)
    ensures AreTheBest(Numbered(AllDrafts(input, stop)), DeriveQueries(input, stop),
                       Specificity(), AddedBefore(), LiteralKey(), 5)
  {
    var seeds := Numbered(AllDrafts(input, stop));
    NumberedInOrder(seeds, 0);
    TopDistinctAreTheBest(seeds, Specificity(), AddedBefore(), LiteralKey(), MAX_SEARCH_QUERIES_PER_REPORT);
  }

  // ------------------------------------------------------------------ matches

  datatype Verification = Verified | FileNotFound

  datatype Candidate = Candidate(file: string, lineStart: Option<nat>, lineEnd: Option<nat>, verification: Verification)

  datatype Query = Query(expression: string, reason: string, specificity: nat)

  datatype Matches = Matches(query: Query, candidates: seq<Candidate>)

  /** What of a candidate and its query matters to the ranking. */
  datatype Found = Found(specificity: nat, reason: string, candidate: Candidate)

  /** With the query's and the result's place. */
  datatype Entry = Entry(found: Found, queryOrder: nat, resultOrder: nat)

  function ResultEntries(query: Query, candidates: seq<Candidate>, queryOrder: nat, resultOrder: nat): seq<Entry> {
    if candidates == [] then []
    else
      [Entry(Found(query.specificity, query.reason, candidates[0]), queryOrder, resultOrder)]
      + ResultEntries(query, candidates[1..], queryOrder, resultOrder + 1)
  }

  function EntriesFrom(matches: seq<Matches>, queryOrder: nat): seq<Entry> {
    if matches == [] then []
    else
      ResultEntries(matches[0].query, matches[0].candidates, queryOrder, 0)
      + EntriesFrom(matches[1..], queryOrder + 1)
  }

  function Entries(matches: seq<Matches>): seq<Entry> {
    EntriesFrom(matches, 0)
  }

  function FoundOf(): Entry -> Found {
    (e: Entry) => e.found
  }

  function FoundRank(): Found -> int {
    (f: Found) => f.specificity
  }

  function IsVerified(): Found -> bool {
    (f: Found) => f.candidate.verification == Verified
  }

  datatype Range = Whole | Lines(start: nat, end: nat)

  /** Both lines, put in order from line 1 on, or none. */
  function NormalRange(c: Candidate): Range {
    if c.lineStart.Some? && c.lineEnd.Some? then
      var start := if c.lineStart.value < 1 then 1 else c.lineStart.value;
      Lines(start, if c.lineEnd.value < start then start else c.lineEnd.value)
    else Whole
  }

  function PlaceKey(): Found -> (string, Range) {
    (f: Found) => (f.candidate.file, NormalRange(f.candidate))
  }

  datatype Hint = Hint(file: string, range: Range, reason: string)

  function HintOf(): Found -> Hint {
    (f: Found) => Hint(f.candidate.file, NormalRange(f.candidate), f.reason)
  }

  /** Everything found, by falling specificity, then query order, then result order. */
  function Ranked(matches: seq<Matches>): seq<Found> {
    StableSort(Map(Entries(matches), FoundOf()), FoundRank())
  }

  function RankMatches(matches: seq<Matches>): seq<Hint> {
    Map(Take(FirstOfEach(Where(Ranked(matches), IsVerified()), PlaceKey(), {}), MAX_CODE_HINTS_PER_REPORT), HintOf())
  }

  function EntryRank(): Entry -> int {
    (e: Entry) => e.found.specificity
  }

  /** An entry's place: its query's, then its own among the query's results. */
  function PlacedBefore(): (Entry, Entry) -> bool {
    (a: Entry, b: Entry) =>
      a.queryOrder < b.queryOrder || (a.queryOrder == b.queryOrder && a.resultOrder < b.resultOrder)
  }

  lemma {:induction false} ResultsAreListed(query: Query, candidates: seq<Candidate>, q: nat, r: nat)
    ensures InOrder(ResultEntries(query, candidates, q, r), PlacedBefore())
    ensures forall e | e in ResultEntries(query, candidates, q, r) :: e.queryOrder == q && r <= e.resultOrder
  {
    if candidates != [] {
      ResultsAreListed(query, candidates[1..], q, r + 1);
      var rest := ResultEntries(query, candidates[1..], q, r + 1);
      assert ResultEntries(query, candidates, q, r)[1..] == rest;
    }
  }

  lemma {:induction false} ListedJoin(a: seq<Entry>, b: seq<Entry>)
    requires InOrder(a, PlacedBefore()) && InOrder(b, PlacedBefore())
    requires forall x, y | x in a && y in b :: PlacedBefore()(x, y)
    ensures InOrder(a + b, PlacedBefore())
  {
    if a == [] {
      assert a + b == b;
    } else {
      ListedJoin(a[1..], b);
      assert (a + b)[1..] == a[1..] + b;
    }
  }

  lemma {:induction false} EntriesAreListed(matches: seq<Matches>, q: nat)
    ensures InOrder(EntriesFrom(matches, q), PlacedBefore())
    ensures forall e | e in EntriesFrom(matches, q) :: q <= e.queryOrder
  {
    if matches != [] {
      ResultsAreListed(matches[0].query, matches[0].candidates, q, 0);
      EntriesAreListed(matches[1..], q + 1);
      ListedJoin(ResultEntries(matches[0].query, matches[0].candidates, q, 0), EntriesFrom(matches[1..], q + 1));
    }
  }

  /** Sorting the entries by (specificity, query order, result order), in whatever way, gives the ranking. */
  lemma RankedIsTheKeySort(matches: seq<Matches>, sorted: seq<Entry>)
    requires Sorted(sorted, EntryRank(), PlacedBefore()) && SameMembers(sorted, Entries(matches))
    ensures Map(sorted, FoundOf()) == Ranked(matches)
  {
    var entries := Entries(matches);
    EntriesAreListed(matches, 0);
    StableSortSorts(entries, EntryRank(), PlacedBefore());
    SortMembers(entries, EntryRank());
    SortedIsUnique(sorted, StableSort(entries, EntryRank()), EntryRank(), PlacedBefore());
    SortThenMap(entries, FoundOf(), EntryRank(), FoundRank());
  }

  // ------------------------------------------------------------------ settling

  function KeepVerified(candidates: seq<Candidate>): seq<Candidate> {
    if candidates == [] then []
    else (if candidates[0].verification == FileNotFound then [] else [candidates[0]]) + KeepVerified(candidates[1..])
  }

  function Settled(matches: seq<Matches>): seq<Matches> {
    if matches == [] then []
    else [Matches(matches[0].query, KeepVerified(matches[0].candidates))] + Settled(matches[1..])
  }

  function Total(matches: seq<Matches>): nat {
    if matches == [] then 0 else |matches[0].candidates| + Total(matches[1..])
  }

  function Absent(candidates: seq<Candidate>): nat {
    if candidates == [] then 0
    else (if candidates[0].verification == FileNotFound then 1 else 0) + Absent(candidates[1..])
  }

  function TotalAbsent(matches: seq<Matches>): nat {
    if matches == [] then 0 else Absent(matches[0].candidates) + TotalAbsent(matches[1..])
  }

  lemma {:induction false} KeptAndAbsent(candidates: seq<Candidate>)
    ensures |KeepVerified(candidates)| + Absent(candidates) == |candidates|
    ensures Absent(KeepVerified(candidates)) == 0
  {
    if candidates != [] {
      var rest := KeepVerified(candidates[1..]);
      KeptAndAbsent(candidates[1..]);
      assert ([candidates[0]] + rest)[1..] == rest;
      assert KeepVerified(candidates)
          == if candidates[0].verification == FileNotFound then rest else [candidates[0]] + rest;
    }
  }

  /** Settling conserves candidates: those dropped and those kept are those seen. */
  lemma {:induction false} SettlingConserves(matches: seq<Matches>)
    ensures TotalAbsent(matches) + Total(Settled(matches)) == Total(matches)
    ensures TotalAbsent(Settled(matches)) == 0
  {
    if matches != [] {
      KeptAndAbsent(matches[0].candidates);
      SettlingConserves(matches[1..]);
      assert Settled(matches)[1..] == Settled(matches[1..]);
    }
  }

  lemma {:induction false} SettledResults(query: Query, candidates: seq<Candidate>, q: nat, r: nat, s: nat)
    ensures Map(ResultEntries(query, KeepVerified(candidates), q, s), FoundOf())
            == Where(Map(ResultEntries(query, candidates, q, r), FoundOf()), IsVerified())
  {
    if candidates != [] {
      var entry := Entry(Found(query.specificity, query.reason, candidates[0]), q, r);
      var rest := ResultEntries(query, candidates[1..], q, r + 1);
      assert Map([entry] + rest, FoundOf()) == [entry.found] + Map(rest, FoundOf()) by {
        assert ([entry] + rest)[1..] == rest;
      }
      assert ([entry.found] + Map(rest, FoundOf()))[1..] == Map(rest, FoundOf());
      if candidates[0].verification == FileNotFound {
        SettledResults(query, candidates[1..], q, r + 1, s);
        assert KeepVerified(candidates) == KeepVerified(candidates[1..]);
      } else {
        SettledResults(query, candidates[1..], q, r + 1, s + 1);
        var kept := KeepVerified(candidates[1..]);
        assert KeepVerified(candidates) == [candidates[0]] + kept && ([candidates[0]] + kept)[1..] == kept;
        var later := ResultEntries(query, kept, q, s + 1);
        assert ([Entry(entry.found, q, s)] + later)[1..] == later;
      }
    }
  }

  lemma {:induction false} SettledEntries(matches: seq<Matches>, q: nat)
    ensures Map(EntriesFrom(Settled(matches), q), FoundOf())
            == Where(Map(EntriesFrom(matches, q), FoundOf()), IsVerified())
  {
    if matches != [] {
      var head := matches[0];
      var results, later := ResultEntries(head.query, head.candidates, q, 0), EntriesFrom(matches[1..], q + 1);
      var kept := ResultEntries(head.query, KeepVerified(head.candidates), q, 0);
      var settledLater := EntriesFrom(Settled(matches[1..]), q + 1);
      SettledResults(head.query, head.candidates, q, 0, 0);
      SettledEntries(matches[1..], q + 1);
      assert Settled(matches)[1..] == Settled(matches[1..]);
      MapJoin(results, later, FoundOf());
      MapJoin(kept, settledLater, FoundOf());
      WhereJoin(Map(results, FoundOf()), Map(later, FoundOf()), IsVerified());
    }
  }

  /** Ranking after settling is ranking before settling. */
  lemma RankingIgnoresSettling(matches: seq<Matches>)
    ensures RankMatches(Settled(matches)) == RankMatches(matches)
  {
    var found := Map(Entries(matches), FoundOf());
    SettledEntries(matches, 0);
    SortThenFilter(found, FoundRank(), IsVerified());
    WhereMembers(found, IsVerified());
    SortMembers(Where(found, IsVerified()), FoundRank());
    WhereAll(StableSort(Where(found, IsVerified()), FoundRank()), IsVerified());
  }

  method RankVerifiedMatches(matches: seq<Matches>) returns (hints: seq<Hint>)
    ensures hints == RankMatches(matches)
  {
    var verified := Where(Ranked(matches), IsVerified());
    var kept := KeepFirstOfEach(verified, PlaceKey(), MAX_CODE_HINTS_PER_REPORT);
    hints := Map(kept, HintOf());
  }

  // ------------------------------------------------------------------ what is stored

  function VerifiedEntry(): Entry -> bool {
    (e: Entry) => e.found.candidate.verification == Verified
  }

  function EntryKey(): Entry -> (string, Range) {
    (e: Entry) => (e.found.candidate.file, NormalRange(e.found.candidate))
  }

  lemma {:induction false} WhereThenMap(xs: seq<Entry>)
    ensures Map(Where(xs, VerifiedEntry()), FoundOf()) == Where(Map(xs, FoundOf()), IsVerified())
  {
    if xs != [] {
      var rest := Where(xs[1..], VerifiedEntry());
      WhereThenMap(xs[1..]);
      assert ([xs[0]] + rest)[1..] == rest;
      assert ([xs[0].found] + Map(xs[1..], FoundOf()))[1..] == Map(xs[1..], FoundOf());
      assert Where(xs, VerifiedEntry()) == if VerifiedEntry()(xs[0]) then [xs[0]] + rest else rest;
    }
  }

  lemma {:induction false} FirstThenMap(xs: seq<Entry>, seen: set<(string, Range)>)
    ensures Map(FirstOfEach(xs, EntryKey(), seen), FoundOf()) == FirstOfEach(Map(xs, FoundOf()), PlaceKey(), seen)
  {
    if xs != [] {
      var key := EntryKey()(xs[0]);
      var later := if key in seen then seen else seen + {key};
      var rest := FirstOfEach(xs[1..], EntryKey(), later);
      FirstThenMap(xs[1..], later);
      assert ([xs[0]] + rest)[1..] == rest;
      assert ([xs[0].found] + Map(xs[1..], FoundOf()))[1..] == Map(xs[1..], FoundOf());
    }
  }

  lemma {:induction false} MapTake(xs: seq<Entry>, limit: nat)
    ensures Map(Take(xs, limit), FoundOf()) == Take(Map(xs, FoundOf()), limit)
    ensures |Map(xs, FoundOf())| == |xs|
  {
    if xs != [] {
      MapTake(xs[1..], if limit == 0 then 0 else limit - 1);
      if 0 < limit < |xs| {
        assert xs[..limit][1..] == xs[1..][..limit - 1];
      }
    }
  }

  /** The lines as stored: from line 1 on, and the last not before the first. */
  predicate RangeOf(c: Candidate, range: Range) {
    match range
    case Whole => c.lineStart.None? || c.lineEnd.None?
    case Lines(start, end) =>
      && c.lineStart.Some? && c.lineEnd.Some?
      && 1 <= start && c.lineStart.value <= start && (start == 1 || start == c.lineStart.value)
      && start <= end && c.lineEnd.value <= end && (end == start || end == c.lineEnd.value)
  }

  predicate IsHintOf(h: Hint, e: Entry) {
    h.file == e.found.candidate.file && h.reason == e.found.reason && RangeOf(e.found.candidate, h.range)
  }

  /** An entry is the candidate at its place among the results of the query at its place. */
  predicate IsEntry(e: Entry, matches: seq<Matches>) {
    && e.queryOrder < |matches| && e.resultOrder < |matches[e.queryOrder].candidates|
    && e.found.candidate == matches[e.queryOrder].candidates[e.resultOrder]
    && e.found.specificity == matches[e.queryOrder].query.specificity
    && e.found.reason == matches[e.queryOrder].query.reason
  }

  lemma {:induction false} ResultEntriesAre(query: Query, candidates: seq<Candidate>, q: nat, r: nat, e: Entry)
    ensures e in ResultEntries(query, candidates, q, r) <==>
              e.queryOrder == q && r <= e.resultOrder < r + |candidates|
              && e.found == Found(query.specificity, query.reason, candidates[e.resultOrder - r])
  {
    if candidates != [] {
      ResultEntriesAre(query, candidates[1..], q, r + 1, e);
    }
  }

  lemma {:induction false} EntriesFromAre(matches: seq<Matches>, q: nat, e: Entry)
    ensures e in EntriesFrom(matches, q) <==>
              q <= e.queryOrder < q + |matches| && IsEntry(e.(queryOrder := e.queryOrder - q), matches)
  {
    if matches != [] {
      ResultEntriesAre(matches[0].query, matches[0].candidates, q, 0, e);
      EntriesFromAre(matches[1..], q + 1, e);
    }
  }

  /** The entries ranked are all the candidates found, each with its query's weight and reason. */
  lemma EntriesAreTheCandidates(matches: seq<Matches>)
    ensures forall e :: e in Entries(matches) <==> IsEntry(e, matches)
  {
    forall e ensures e in Entries(matches) <==> IsEntry(e, matches) {
      EntriesFromAre(matches, 0, e);
    }
  }

  /** One entry ranks above another; by its query's specificity, its query's turn, its own turn. */
  predicate Outranks(a: Entry, b: Entry) {
    || a.found.specificity > b.found.specificity
    || (a.found.specificity == b.found.specificity && a.queryOrder < b.queryOrder)
    || (a.found.specificity == b.found.specificity && a.queryOrder == b.queryOrder && a.resultOrder < b.resultOrder)
  }

  /** The same file and the same stored lines. */
  predicate SamePlace(a: Entry, b: Entry) {
    && a.found.candidate.file == b.found.candidate.file
    && NormalRange(a.found.candidate) == NormalRange(b.found.candidate)
  }

  predicate Eligible(e: Entry, matches: seq<Matches>) {
    IsEntry(e, matches) && e.found.candidate.verification == Verified
  }

  /** The best twelve of the verified candidates, one for each place, in order. */
  ghost predicate BestTwelve(matches: seq<Matches>, kept: seq<Entry>) {
    && |kept| <= 12
    && (forall e | e in kept :: Eligible(e, matches))
    && (forall i, j | 0 <= i < j < |kept| :: Outranks(kept[i], kept[j]) && !SamePlace(kept[i], kept[j]))
    && (forall x, y | x in kept && Eligible(y, matches) && SamePlace(x, y) :: x == y || Outranks(x, y))
    && (forall y | Eligible(y, matches) && !Placed(y, kept) :: |kept| == 12 && forall x | x in kept :: Outranks(x, y))
  }

  predicate Placed(y: Entry, kept: seq<Entry>) {
    exists x | x in kept :: SamePlace(x, y)
  }

  /**
   * The hints stored come from the best verified entries: at most twelve, of distinct files
   * and ranges, each first among its own in (specificity, query order, result order), and
   * none left out that comes before one of them.
   */
  lemma HintsAreTheBestEntries(matches: seq<Matches>) returns (kept: seq<Entry>)
    ensures |RankMatches(matches)| == |kept|
    ensures forall i | 0 <= i < |kept| :: IsHintOf(RankMatches(matches)[i], kept[i])
    ensures BestTwelve(matches, kept)
  {
    var entries := Entries(matches);
    var verified := Where(entries, VerifiedEntry());
    var sorted := StableSort(verified, EntryRank());
    kept := TopDistinct(verified, EntryRank(), EntryKey(), MAX_CODE_HINTS_PER_REPORT);
    EntriesAreListed(matches, 0);
    WhereStaysInOrder(entries, VerifiedEntry(), PlacedBefore());
    TopDistinctAreTheBest(verified, EntryRank(), PlacedBefore(), EntryKey(), MAX_CODE_HINTS_PER_REPORT);
    WhereThenMap(entries);
    SortThenMap(verified, FoundOf(), EntryRank(), FoundRank());
    SortThenFilter(Map(entries, FoundOf()), FoundRank(), IsVerified());
    FirstThenMap(sorted, {});
    MapTake(FirstOfEach(sorted, EntryKey(), {}), MAX_CODE_HINTS_PER_REPORT);
    VerifiedAreEligible(matches);
    TheBestAreTwelve(matches, verified, kept);
    HintsAreOf(kept);
  }

  lemma VerifiedAreEligible(matches: seq<Matches>)
    ensures forall e :: e in Where(Entries(matches), VerifiedEntry()) <==> Eligible(e, matches)
  {
    EntriesAreTheCandidates(matches);
    WhereMembers(Entries(matches), VerifiedEntry());
  }

  lemma KeysAre(a: Entry, b: Entry)
    ensures Before(a, b, EntryRank(), PlacedBefore()) <==> Outranks(a, b)
    ensures EntryKey()(a) == EntryKey()(b) <==> SamePlace(a, b)
  {}

  ghost predicate Best(xs: seq<Entry>, kept: seq<Entry>) {
    AreTheBest(xs, kept, EntryRank(), PlacedBefore(), EntryKey(), 12)
  }

  lemma BestAreInOrder(xs: seq<Entry>, kept: seq<Entry>, i: nat, j: nat)
    requires Best(xs, kept) && i < j < |kept|
    ensures Outranks(kept[i], kept[j]) && !SamePlace(kept[i], kept[j])
  {
    KeysAre(kept[i], kept[j]);
  }

  lemma BestComeFirst(xs: seq<Entry>, kept: seq<Entry>, x: Entry, y: Entry)
    requires Best(xs, kept) && x in kept && y in xs && SamePlace(x, y)
    ensures x == y || Outranks(x, y)
  {
    KeysAre(y, x);
    KeysAre(x, y);
    assert EntryKey()(y) == EntryKey()(x);
  }

  lemma OthersComeAfter(xs: seq<Entry>, kept: seq<Entry>, y: Entry)
    requires Best(xs, kept) && y in xs && !Placed(y, kept)
    ensures |kept| == 12 && forall x | x in kept :: Outranks(x, y)
  {
    forall x | x in kept ensures EntryKey()(x) != EntryKey()(y) {
      KeysAre(x, y);
    }
    assert !HasKey(kept, EntryKey(), EntryKey()(y));
    forall x | x in kept ensures Outranks(x, y) {
      assert Before(x, y, EntryRank(), PlacedBefore());
      KeysAre(x, y);
    }
  }

  lemma TheBestAreTwelve(matches: seq<Matches>, xs: seq<Entry>, kept: seq<Entry>)
    requires Best(xs, kept) && forall e :: e in xs <==> Eligible(e, matches)
    ensures BestTwelve(matches, kept)
  {
    forall i, j | 0 <= i < j < |kept| ensures Outranks(kept[i], kept[j]) && !SamePlace(kept[i], kept[j]) {
      BestAreInOrder(xs, kept, i, j);
    }
    forall x, y | x in kept && Eligible(y, matches) && SamePlace(x, y) ensures x == y || Outranks(x, y) {
      BestComeFirst(xs, kept, x, y);
    }
    forall y | Eligible(y, matches) && !Placed(y, kept)
      ensures |kept| == 12 && forall x | x in kept :: Outranks(x, y)
    {
      OthersComeAfter(xs, kept, y);
    }
  }

  lemma {:induction false} HintsAreOf(kept: seq<Entry>)
    ensures |Map(Map(kept, FoundOf()), HintOf())| == |kept|
    ensures forall i | 0 <= i < |kept| :: IsHintOf(Map(Map(kept, FoundOf()), HintOf())[i], kept[i])
  {
    if kept != [] {
      HintsAreOf(kept[1..]);
      assert Map(kept, FoundOf())[1..] == Map(kept[1..], FoundOf());
    }
  }

  lemma {:induction false} HintsAreMapped(found: seq<Found>)
    ensures |Map(found, HintOf())| == |found|
    ensures forall i | 0 <= i < |found| :: Map(found, HintOf())[i] == HintOf()(found[i])
  {
    if found != [] {
      HintsAreMapped(found[1..]);
    }
  }

  /** Every stored range starts at line 1 or later and does not end before it starts. */
  lemma StoredRangesAreOrdered(matches: seq<Matches>)
    ensures |RankMatches(matches)| <= 12
    ensures forall h | h in RankMatches(matches) && h.range.Lines? :: 1 <= h.range.start <= h.range.end
  {
    HintsAreMapped(Take(FirstOfEach(Where(Ranked(matches), IsVerified()), PlaceKey(), {}), MAX_CODE_HINTS_PER_REPORT));
  }
}
