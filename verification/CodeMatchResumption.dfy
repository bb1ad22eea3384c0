/**
 * Resolving search candidates against a pinned commit, file by file and over as many attempts
 * as it takes: what is still pending is stored when an attempt breaks off.
 */
module CodeMatchResumption {
  import opened Basics
  import opened CodeMatch
  import opened CodeMatchSettlement
  import P = PinnedContent

  datatype Pending = Pending(file: string, textMatch: Option<P.TextMatch>)

  /** How a file of the pinned commit was answered; an exhausted budget is incomplete like any failed call. */
  datatype Fetched = Content(text: string) | NotFound | Incomplete

  /** One attempt's answers, file by file. */
  type Answers = string -> Fetched

  datatype Work = Work(pending: seq<seq<Pending>>, resolved: seq<Matches>, seen: nat, absent: nat)

  // ------------------------------------------------------------------ one file

  function FirstFile(pending: seq<seq<Pending>>): Option<string> {
    if pending == [] then None
    else if pending[0] != [] then Some(pending[0][0].file)
    else FirstFile(pending[1..])
  }

  function Located(found: P.Candidate): Candidate {
    match found.range
    case Some(lines) => Candidate(found.file, Some(lines.start), Some(lines.end), Verified)
    case None => Candidate(found.file, None, None, Verified)
  }

  /** A candidate of a file that was read is verified or absent; a missing file is settled later. */
  function Verdict(c: Pending, fetched: Fetched): Option<Candidate>
    requires !fetched.Incomplete?
  {
    match fetched
    case Content(text) =>
      var found := P.VerifyAgainstPinnedContent(c.file, c.textMatch, text);
      if found.Some? then Some(Located(found.value)) else None
    case NotFound => Some(Candidate(c.file, None, None, FileNotFound))
  }

  /** What judging a file did to one query's candidates. */
  datatype Tally = Tally(others: seq<Pending>, results: seq<Candidate>, counted: nat, dropped: nat)

  function OneMore(tally: Tally, c: Pending, file: string, fetched: Fetched): Tally
    requires !fetched.Incomplete?
  {
    if c.file != file then tally.(others := tally.others + [c])
    else match Verdict(c, fetched)
      case Some(kept) => tally.(results := tally.results + [kept], counted := tally.counted + 1)
      case None => tally.(counted := tally.counted + 1, dropped := tally.dropped + 1)
  }

  function Tallied(candidates: seq<Pending>, file: string, fetched: Fetched): Tally
    requires !fetched.Incomplete?
  {
    if candidates == [] then Tally([], [], 0, 0)
    else
      var last := |candidates| - 1;
      OneMore(Tallied(candidates[..last], file, fetched), candidates[last], file, fetched)
  }

  lemma {:induction false} TallyAccounts(candidates: seq<Pending>, file: string, fetched: Fetched)
    requires !fetched.Incomplete?
    ensures var tally := Tallied(candidates, file, fetched);
            && |tally.results| + tally.dropped == tally.counted
            && |tally.others| + tally.counted == |candidates|
            && (candidates != [] && candidates[0].file == file ==> tally.counted > 0)
  {
    if candidates != [] {
      TallyAccounts(candidates[..|candidates| - 1], file, fetched);
    }
  }

  // ------------------------------------------------------------------ all queries

  function Left(pending: seq<seq<Pending>>): nat {
    if pending == [] then 0 else |pending[0]| + Left(pending[1..])
  }

  /** The same for all queries. */
  datatype Tallies = Tallies(pending: seq<seq<Pending>>, resolved: seq<Matches>, counted: nat, dropped: nat)

  function WithFirst(tally: Tally, m: Matches, rest: Tallies): Tallies {
    Tallies([tally.others] + rest.pending, [m.(candidates := m.candidates + tally.results)] + rest.resolved,
            tally.counted + rest.counted, tally.dropped + rest.dropped)
  }

  function TalliedAll(pending: seq<seq<Pending>>, resolved: seq<Matches>, file: string, fetched: Fetched)
      : (all: Tallies)
    requires |pending| == |resolved| && !fetched.Incomplete?
    ensures |all.pending| == |all.resolved| == |pending|
  {
    if pending == [] then Tallies([], [], 0, 0)
    else
      WithFirst(Tallied(pending[0], file, fetched), resolved[0],
                TalliedAll(pending[1..], resolved[1..], file, fetched))
  }

  predicate Paired(w: Work) {
    |w.pending| == |w.resolved|
  }

  /** Every pending candidate of a file is judged at once, for all queries. */
  function Judged(w: Work, file: string, fetched: Fetched): (judged: Work)
    requires Paired(w) && !fetched.Incomplete?
    ensures Paired(judged)
  {
    var all := TalliedAll(w.pending, w.resolved, file, fetched);
    Work(all.pending, all.resolved,
         Bounded(w.seen + all.counted, USIZE_MAX), Bounded(w.absent + all.dropped, USIZE_MAX))
  }

  lemma {:induction false} FirstFileOrNone(pending: seq<seq<Pending>>)
    ensures FirstFile(pending).None? <==> Left(pending) == 0
  {
    if pending != [] {
      FirstFileOrNone(pending[1..]);
    }
  }

  lemma {:induction false} JudgingAccounts(
      pending: seq<seq<Pending>>, resolved: seq<Matches>, file: string, fetched: Fetched)
    requires |pending| == |resolved| && !fetched.Incomplete?
    ensures var all := TalliedAll(pending, resolved, file, fetched);
            && Left(all.pending) + all.counted == Left(pending)
            && Total(all.resolved) + all.dropped == Total(resolved) + all.counted
            && (FirstFile(pending) == Some(file) ==> all.counted > 0)
  {
    if pending != [] {
      var rest := TalliedAll(pending[1..], resolved[1..], file, fetched);
      TallyAccounts(pending[0], file, fetched);
      JudgingAccounts(pending[1..], resolved[1..], file, fetched);
      var all := TalliedAll(pending, resolved, file, fetched);
      assert all.pending[1..] == rest.pending && all.resolved[1..] == rest.resolved;
    }
  }

  // ------------------------------------------------------------------ attempts

  /** One attempt: file after file in the order of the candidates, until an answer is incomplete or nothing is left. */
  function Resumed(w: Work, answers: Answers): (resumed: Work)
    requires Paired(w)
    ensures Paired(resumed)
    decreases Left(w.pending)
  {
    match FirstFile(w.pending)
    case None => w
    case Some(file) =>
      if answers(file).Incomplete? then w
      else
        JudgingAccounts(w.pending, w.resolved, file, answers(file));
        Resumed(Judged(w, file, answers(file)), answers)
  }

  /** The commit is pinned, so an attempt learns of a file what every other attempt does, or nothing. */
  ghost predicate Glimpses(answers: Answers, pinned: Answers) {
    forall file :: answers(file).Incomplete? || answers(file) == pinned(file)
  }

  ghost predicate Whole(pinned: Answers) {
    forall file :: !pinned(file).Incomplete?
  }

  /** However an attempt breaks off, going on gives what one uninterrupted attempt gives. */
  lemma {:induction false} InterruptionsNeverShow(w: Work, answers: Answers, pinned: Answers)
    requires Paired(w) && Glimpses(answers, pinned) && Whole(pinned)
    ensures Resumed(Resumed(w, answers), pinned) == Resumed(w, pinned)
    decreases Left(w.pending)
  {
    var file := FirstFile(w.pending);
    if file.Some? && !answers(file.value).Incomplete? {
      JudgingAccounts(w.pending, w.resolved, file.value, answers(file.value));
      InterruptionsNeverShow(Judged(w, file.value, answers(file.value)), answers, pinned);
    }
  }

  /** Without interruption nothing is left pending. */
  lemma {:induction false} WholeLeavesNothing(w: Work, pinned: Answers)
    requires Paired(w) && Whole(pinned)
    ensures Left(Resumed(w, pinned).pending) == 0
    decreases Left(w.pending)
  {
    FirstFileOrNone(w.pending);
    var file := FirstFile(w.pending);
    if file.Some? {
      JudgingAccounts(w.pending, w.resolved, file.value, pinned(file.value));
      WholeLeavesNothing(Judged(w, file.value, pinned(file.value)), pinned);
    }
  }

  /** What was seen is what was dropped and what was resolved, and with what is pending it makes up all candidates. */
  predicate Accounted(w: Work, all: nat) {
    w.seen + Left(w.pending) == all && w.absent + Total(w.resolved) == w.seen
  }

  lemma {:induction false} ResumingAccounts(w: Work, answers: Answers, all: nat)
    requires Paired(w) && Accounted(w, all) && all <= USIZE_MAX
    ensures Accounted(Resumed(w, answers), all)
    decreases Left(w.pending)
  {
    var file := FirstFile(w.pending);
    if file.Some? && !answers(file.value).Incomplete? {
      JudgingAccounts(w.pending, w.resolved, file.value, answers(file.value));
      ResumingAccounts(Judged(w, file.value, answers(file.value)), answers, all);
    }
  }

  // ------------------------------------------------------------------ as it is written

  function Then(a: Tallies, b: Tallies): Tallies {
    Tallies(a.pending + b.pending, a.resolved + b.resolved, a.counted + b.counted, a.dropped + b.dropped)
  }

  /** The queries done, and what the others will add. */
  ghost function Ahead(
      done: Tallies, i: nat, pending: seq<seq<Pending>>, resolved: seq<Matches>, file: string, fetched: Fetched)
      : Tallies
    requires i <= |pending| == |resolved| && !fetched.Incomplete?
  {
    Then(done, TalliedAll(pending[i..], resolved[i..], file, fetched))
  }

  /** One query's candidates, judged. */
  function Single(candidates: seq<Pending>, m: Matches, file: string, fetched: Fetched): Tallies
    requires !fetched.Incomplete?
  {
    WithFirst(Tallied(candidates, file, fetched), m, Tallies([], [], 0, 0))
  }

  lemma AheadStarts(pending: seq<seq<Pending>>, resolved: seq<Matches>, file: string, fetched: Fetched)
    requires |pending| == |resolved| && !fetched.Incomplete?
    ensures Ahead(Tallies([], [], 0, 0), 0, pending, resolved, file, fetched)
            == TalliedAll(pending, resolved, file, fetched)
  {
    assert pending[0..] == pending && resolved[0..] == resolved;
    NothingThen(TalliedAll(pending, resolved, file, fetched));
  }

  lemma NothingThen(t: Tallies)
    ensures Then(Tallies([], [], 0, 0), t) == t
  {
    assert [] + t.pending == t.pending && [] + t.resolved == t.resolved;
  }

  lemma AheadSteps(
      done: Tallies, i: nat, pending: seq<seq<Pending>>, resolved: seq<Matches>, file: string, fetched: Fetched)
    requires i < |pending| == |resolved| && !fetched.Incomplete?
    ensures Ahead(Then(done, Single(pending[i], resolved[i], file, fetched)), i + 1, pending, resolved, file, fetched)
            == Ahead(done, i, pending, resolved, file, fetched)
  {
    assert pending[i..][1..] == pending[i + 1..] && resolved[i..][1..] == resolved[i + 1..];
  }

  lemma AheadEnds(
      done: Tallies, pending: seq<seq<Pending>>, resolved: seq<Matches>, file: string, fetched: Fetched)
    requires |pending| == |resolved| && !fetched.Incomplete?
    ensures Ahead(done, |pending|, pending, resolved, file, fetched) == done
  {}

  /** What a job stores between attempts: pending and resolved candidates, and the counts. */
  class Resolution {
    var pending: seq<seq<Pending>>
    var resolved: seq<Matches>
    const tracker: Tracker

    function Snapshot(): Work
      reads this, tracker
    {
      Work(pending, resolved, tracker.candidatesSeen, tracker.droppedAsAbsent)
    }

    constructor (queries: seq<Query>, found: seq<seq<Pending>>)
      requires |queries| == |found|
      ensures fresh(tracker) && Snapshot() == Work(found, NoneResolved(queries), 0, 0) && Paired(Snapshot())
    {
      pending, resolved := found, NoneResolved(queries);
      tracker := new Tracker();
    }

    /** One query's candidates of one file. */
    method JudgeCandidates(candidates: seq<Pending>, already: seq<Candidate>, file: string, fetched: Fetched)
        returns (others: seq<Pending>, results: seq<Candidate>)
      requires !fetched.Incomplete? && tracker.candidatesSeen <= USIZE_MAX && tracker.droppedAsAbsent <= USIZE_MAX
      modifies tracker
      ensures var tally := Tallied(candidates, file, fetched);
              && others == tally.others && results == already + tally.results
              && tracker.candidatesSeen == Bounded(old(tracker.candidatesSeen) + tally.counted, USIZE_MAX)
              && tracker.droppedAsAbsent == Bounded(old(tracker.droppedAsAbsent) + tally.dropped, USIZE_MAX)
    {
      others, results := [], already;
      ghost var tally := Tally([], [], 0, 0);
      for i := 0 to |candidates|
        invariant tally == Tallied(candidates[..i], file, fetched)
        invariant others == tally.others && results == already + tally.results
        invariant tracker.candidatesSeen == Bounded(old(tracker.candidatesSeen) + tally.counted, USIZE_MAX)
        invariant tracker.droppedAsAbsent == Bounded(old(tracker.droppedAsAbsent) + tally.dropped, USIZE_MAX)
      {
        assert candidates[..i + 1][..i] == candidates[..i];
        tally := OneMore(tally, candidates[i], file, fetched);
        if candidates[i].file != file {
          others := others + [candidates[i]];
        } else {
          tracker.ObserveCandidates(1);
          var verdict := Verdict(candidates[i], fetched);
          if verdict.Some? {
            results := results + [verdict.value];
          } else {
            tracker.ObserveAbsent(1);
          }
        }
      }
      assert candidates[..|candidates|] == candidates;
    }

    /** The same, as one step of all queries. */
    method JudgeQuery(candidates: seq<Pending>, m: Matches, file: string, fetched: Fetched, ghost done: Tallies)
        returns (others: seq<Pending>, judged: Matches, ghost next: Tallies)
      requires !fetched.Incomplete? && tracker.candidatesSeen <= USIZE_MAX && tracker.droppedAsAbsent <= USIZE_MAX
      modifies tracker
      ensures next == Then(done, Single(candidates, m, file, fetched))
      ensures next.pending == done.pending + [others] && next.resolved == done.resolved + [judged]
      ensures next.counted >= done.counted && next.dropped >= done.dropped
      ensures tracker.candidatesSeen
              == Bounded(old(tracker.candidatesSeen) + (next.counted - done.counted), USIZE_MAX)
      ensures tracker.droppedAsAbsent
              == Bounded(old(tracker.droppedAsAbsent) + (next.dropped - done.dropped), USIZE_MAX)
    {
      next := Then(done, Single(candidates, m, file, fetched));
      var results;
      others, results := JudgeCandidates(candidates, m.candidates, file, fetched);
      judged := m.(candidates := results);
    }

    /** All queries' candidates of one file. */
    method JudgeQueries(before: seq<seq<Pending>>, found: seq<Matches>, file: string, fetched: Fetched)
        returns (others: seq<seq<Pending>>, added: seq<Matches>)
      requires |before| == |found| && !fetched.Incomplete?
      requires tracker.candidatesSeen <= USIZE_MAX && tracker.droppedAsAbsent <= USIZE_MAX
      modifies tracker
      ensures var all := TalliedAll(before, found, file, fetched);
              && others == all.pending && added == all.resolved
              && tracker.candidatesSeen == Bounded(old(tracker.candidatesSeen) + all.counted, USIZE_MAX)
              && tracker.droppedAsAbsent == Bounded(old(tracker.droppedAsAbsent) + all.dropped, USIZE_MAX)
    {
      ghost var done, all := Tallies([], [], 0, 0), TalliedAll(before, found, file, fetched);
      AheadStarts(before, found, file, fetched);
      others, added := [], [];
      for i := 0 to |before|
        invariant others == done.pending && added == done.resolved
        invariant Ahead(done, i, before, found, file, fetched) == all
        invariant tracker.candidatesSeen == Bounded(old(tracker.candidatesSeen) + done.counted, USIZE_MAX)
        invariant tracker.droppedAsAbsent == Bounded(old(tracker.droppedAsAbsent) + done.dropped, USIZE_MAX)
      {
        AheadSteps(done, i, before, found, file, fetched);
        var left, judged;
        left, judged, done := JudgeQuery(before[i], found[i], file, fetched, done);
        others, added := others + [left], added + [judged];
      }
      AheadEnds(done, before, found, file, fetched);
    }

    method JudgeFile(file: string, fetched: Fetched)
      requires Paired(Snapshot()) && !fetched.Incomplete?
      requires tracker.candidatesSeen <= USIZE_MAX && tracker.droppedAsAbsent <= USIZE_MAX
      modifies this, tracker
      ensures Snapshot() == Judged(old(Snapshot()), file, fetched)
    {
      var others, added := JudgeQueries(pending, resolved, file, fetched);
      pending, resolved := others, added;
    }

    /** One attempt; what it leaves pending is stored and taken up by the next. */
    method ResolvePending(answers: Answers) returns (complete: bool)
      requires Paired(Snapshot()) && tracker.candidatesSeen <= USIZE_MAX && tracker.droppedAsAbsent <= USIZE_MAX
      modifies this, tracker
      ensures Snapshot() == Resumed(old(Snapshot()), answers)
      ensures complete <==> Left(pending) == 0
      ensures tracker.candidatesSeen <= USIZE_MAX && tracker.droppedAsAbsent <= USIZE_MAX
    {
      var file := FirstFile(pending);
      FirstFileOrNone(pending);
      while file.Some?
        invariant Paired(Snapshot()) && file == FirstFile(pending)
        invariant tracker.candidatesSeen <= USIZE_MAX && tracker.droppedAsAbsent <= USIZE_MAX
        invariant Resumed(Snapshot(), answers) == Resumed(old(Snapshot()), answers)
        invariant file.None? <==> Left(pending) == 0
        decreases Left(pending)
      {
        if answers(file.value).Incomplete? {
          return false;
        }
        JudgingAccounts(pending, resolved, file.value, answers(file.value));
        JudgeFile(file.value, answers(file.value));
        file := FirstFile(pending);
        FirstFileOrNone(pending);
      }
      return true;
    }
  }

  function NoneResolved(queries: seq<Query>): (resolved: seq<Matches>)
    ensures |resolved| == |queries| && Total(resolved) == 0
  {
    if queries == [] then [] else [Matches(queries[0], [])] + NoneResolved(queries[1..])
  }

  /**
   * The hints are the ranking of what was resolved; the counts, up to the width of the report,
   * say how many candidates there were and how many are kept, and partition them.
   */
  predicate ReportsOn(hints: seq<Hint>, outcome: Outcome, resolved: seq<Matches>, all: nat) {
    && hints == RankMatches(resolved)
    && outcome.candidatesSeen == Bounded(all, I64_MAX)
    && outcome.keptVerified == Bounded(Total(Settled(resolved)), I64_MAX)
    && outcome.candidatesSeen
       == SaturatingAdd(SaturatingAdd(outcome.droppedAsAbsent, outcome.keptVerified, I64_MAX),
                        outcome.keptUnverified, I64_MAX)
  }

  /** What is stored between attempts: all accounted for, and on the way to what one attempt would give. */
  ghost predicate Underway(w: Work, start: Work, pinned: Answers, all: nat) {
    && Paired(w) && Accounted(w, all) && Paired(start)
    && Resumed(w, pinned) == Resumed(start, pinned)
  }

  lemma AttemptGoesOn(w: Work, start: Work, answers: Answers, pinned: Answers, all: nat)
    requires Underway(w, start, pinned, all) && all <= USIZE_MAX && Glimpses(answers, pinned) && Whole(pinned)
    ensures Underway(Resumed(w, answers), start, pinned, all)
    ensures Whole(answers) ==> Left(Resumed(w, answers).pending) == 0
  {
    InterruptionsNeverShow(w, answers, pinned);
    ResumingAccounts(w, answers, all);
    if Whole(answers) {
      WholeLeavesNothing(w, answers);
    }
  }

  lemma NothingLeft(w: Work, start: Work, pinned: Answers, all: nat)
    requires Underway(w, start, pinned, all) && Left(w.pending) == 0
    ensures w.resolved == Resumed(start, pinned).resolved
  {
    FirstFileOrNone(w.pending);
  }

  /**
   * A resolution from end to end. Once an attempt completes, the hints are those of one
   * uninterrupted attempt, and the reported counts partition all the candidates there were,
   * up to the width of the report. An attempt that is never interrupted completes.
   */
  method Resolve(queries: seq<Query>, found: seq<seq<Pending>>, attempts: seq<Answers>, ghost pinned: Answers)
      returns (settled: Option<(seq<Hint>, Outcome)>)
    requires |queries| == |found| && Left(found) <= USIZE_MAX
    requires Whole(pinned) && forall answers | answers in attempts :: Glimpses(answers, pinned)
    ensures SomeWhole(attempts, |attempts|) ==> settled.Some?
    ensures settled.Some? ==>
              ReportsOn(settled.value.0, settled.value.1,
                        Resumed(Work(found, NoneResolved(queries), 0, 0), pinned).resolved, Left(found))
  {
    var job := new Resolution(queries, found);
    var complete := ResolveAttempts(job, attempts, pinned, Left(found));
    if !complete {
      return None;
    }
    var hints, outcome := FinishResolution(job, Left(found));
    return Some((hints, outcome));
  }

  ghost predicate SomeWhole(attempts: seq<Answers>, n: nat)
    requires n <= |attempts|
  {
    exists i | 0 <= i < n :: Whole(attempts[i])
  }

  /** Attempt after attempt until nothing is left. */
  method ResolveAttempts(job: Resolution, attempts: seq<Answers>, ghost pinned: Answers, ghost all: nat)
      returns (complete: bool)
    requires Paired(job.Snapshot()) && Accounted(job.Snapshot(), all) && all <= USIZE_MAX
    requires Whole(pinned) && forall answers | answers in attempts :: Glimpses(answers, pinned)
    modifies job, job.tracker
    ensures Underway(job.Snapshot(), old(job.Snapshot()), pinned, all)
    ensures complete ==> Left(job.pending) == 0
                         && job.resolved == Resumed(old(job.Snapshot()), pinned).resolved
    ensures SomeWhole(attempts, |attempts|) ==> complete
  {
    ghost var start := job.Snapshot();
    for i := 0 to |attempts|
      invariant Underway(job.Snapshot(), start, pinned, all)
      invariant !SomeWhole(attempts, i)
    {
      AttemptGoesOn(job.Snapshot(), start, attempts[i], pinned, all);
      complete := job.ResolvePending(attempts[i]);
      if complete {
        NothingLeft(job.Snapshot(), start, pinned, all);
        return true;
      }
    }
    return false;
  }

  /** Candidates of missing files are settled, the rest is counted and ranked. */
  method FinishResolution(job: Resolution, ghost all: nat) returns (hints: seq<Hint>, outcome: Outcome)
    requires Accounted(job.Snapshot(), all) && Left(job.pending) == 0 && all <= USIZE_MAX
    modifies job.tracker
    ensures ReportsOn(hints, outcome, job.resolved, all)
  {
    var settled, dropped := SettleFileNotFound(job.resolved);
    SettlingConserves(job.resolved);
    job.tracker.ObserveAbsent(dropped);
    outcome := job.tracker.Finish(settled);
    RankingIgnoresSettling(job.resolved);
    hints := RankVerifiedMatches(settled);
  }
}
