/** Whole syncs, one after another: claim, drain, run and finish on a frozen source. */
module ExportCycles {
  import opened Basics
  import opened ExportTable
  import opened DestinationStore
  import opened ExportProgress
  import opened ExportTurns
  import opened ExportLoop

  /** A destination free to be claimed, and ids from `id` on never issued. */
  ghost predicate Ready(s: State, d: DestId, id: nat) {
    && d in s.dests && d in s.configs && s.dests[d].claimedAt.None?
    && (forall token | token in s.issued :: token < id && s.issued[token] < id)
  }

  function SourceRows(s: State, d: DestId, stream: Stream): Table
    requires d in s.configs
  {
    SourceOf(s, s.configs[d].workspace, stream).rows
  }

  /** The claimed and started job, with `id` for its token and its run. */
  function Started(s: State, d: DestId, id: nat): State
    requires d in s.dests
  {
    var claimed := ApplyClaim(s, d, id, id, Manual);
    ApplyStartDrain(claimed, id)
  }

  lemma StartTakesSteps(s: State, d: DestId, id: nat) returns (path: seq<State>, steps: Steps)
    requires Ready(s, d, id)
    ensures Path(path, steps) && path[0] == s && path[|steps|] == Started(s, d, id)
  {
    var claim := Claim(d, id, id, Manual);
    var claimed := Apply(s, claim);
    TwoSteps(s, claim, claimed, StartDrain(id), Started(s, d, id));
    path, steps := [s, claimed, Started(s, d, id)], [claim, StartDrain(id)];
  }

  lemma StartedIsInStream(s: State, d: DestId, id: nat)
    requires Ready(s, d, id)
    ensures var t := Started(s, d, id);
            && InStream(t, id, Interactions) && t.workers[id].phase.total == 0 && t.workers[id].destination == d
            && t.workers[id].token == id && t.dests[d].claimToken == Some(id)
            && t.runs == s.runs[id := Run(d, Manual, Running, 0, None, s.now, None)]
            && t.dests.Keys == s.dests.Keys && t.configs == s.configs && t.sources == s.sources
               && t.cursors == s.cursors
            && t.issued == s.issued[id := id]
            && (forall stream :: RowsOf(t, id, stream) == SourceRows(s, d, stream))
  {}

  /** One whole sync whose calls are all answered. */
  ghost function AfterSync(s: State, d: DestId, id: nat, answers: Answers): State
    requires d in s.dests
  {
    var t := AfterRun(Started(s, d, id), id, answers);
    if Enabled(t, Finish(id)) then Apply(t, Finish(id)) else t
  }

  lemma FinishFrees(t: State, d: DestId, id: nat, n: nat)
    requires id in t.workers && t.workers[id].phase == Ended(Exported(n)) && t.workers[id].destination == d
    requires t.workers[id].token == id && d in t.dests && t.dests[d].claimToken == Some(id)
    requires id in t.runs && t.runs[id].destination == d && t.runs[id].status.Running?
    ensures Enabled(t, Finish(id))
    ensures var u := Apply(t, Finish(id));
            && u.dests.Keys == t.dests.Keys && u.dests[d].claimedAt.None?
            && u.runs == t.runs[id := Settled(t.runs[id], Exported(n), t.now)]
            && u.configs == t.configs && u.sources == t.sources && u.cursors == t.cursors && u.issued == t.issued
  {}

  /** What one sync does to the store, as far as the next one cares. */
  ghost predicate Synced(s: State, d: DestId, id: nat, t: State, n: nat) {
    && Ready(t, d, id + 1)
    && t.configs == s.configs && t.sources == s.sources
    && id in t.runs && t.runs[id].status.Succeeded? && t.runs[id].recordsExported == n
    && (forall r | r in s.runs && r != id :: r in t.runs && t.runs[r] == s.runs[r])
  }

  /** From the state the run leaves. */
  lemma FinishSyncs(s: State, d: DestId, id: nat, t: State, n: nat)
    requires Ready(s, d, id) && OnlyExports(Started(s, d, id), id, t) && t.workers[id].phase == Ended(Exported(n))
    ensures Enabled(t, Finish(id)) && Synced(s, d, id, Apply(t, Finish(id)), n)
    ensures Apply(t, Finish(id)).cursors == t.cursors
  {
    StartedIsInStream(s, d, id);
    FinishFrees(t, d, id, n);
  }

  /** A sync records exactly the rows `RunOnce` exports, moves the cursors as it says, and frees the destination. */
  lemma SyncIsRunOnce(s: State, d: DestId, id: nat, answers: Answers)
    requires Ready(s, d, id) && AllFine(answers)
    requires Ascending(SourceRows(s, d, Interactions)) && Ascending(SourceRows(s, d, FeedbackReports))
    ensures var t := AfterSync(s, d, id, answers);
            var to := RunOnce(SourceRows(s, d, Interactions), SourceRows(s, d, FeedbackReports), ProgressOf(s, d, 0));
            Synced(s, d, id, t, to.exported) && ProgressOf(t, d, to.exported) == to
  {
    var begun := Started(s, d, id);
    StartedIsInStream(s, d, id);
    assert RowsOf(begun, id, Interactions) == SourceRows(s, d, Interactions);
    assert RowsOf(begun, id, FeedbackReports) == SourceRows(s, d, FeedbackReports);
    assert ProgressOf(begun, d, 0) == ProgressOf(s, d, 0);
    RunIsRunOnce(begun, id, answers);
    var to := RunOnce(SourceRows(s, d, Interactions), SourceRows(s, d, FeedbackReports), ProgressOf(s, d, 0));
    FinishSyncs(s, d, id, AfterRun(begun, id, answers), to.exported);
  }

  /** A sync is a path of steps of the system. */
  lemma SyncTakesSteps(s: State, d: DestId, id: nat, answers: Answers) returns (path: seq<State>, steps: Steps)
    requires Ready(s, d, id)
    ensures Path(path, steps) && path[0] == s && path[|steps|] == AfterSync(s, d, id, answers)
  {
    path, steps := StartTakesSteps(s, d, id);
    var run, more := RunTakesSteps(Started(s, d, id), id, answers);
    PathsTogether(path, steps, run, more);
    path, steps := path + run[1..], steps + more;
    var t := AfterRun(Started(s, d, id), id, answers);
    if Enabled(t, Finish(id)) {
      var last := Apply(t, Finish(id));
      assert Takes(t, Finish(id), last);
      PathsTogether(path, steps, [t, last], [Finish(id)]);
      path, steps := path + [t, last][1..], steps + [Finish(id)];
    }
  }

  // ------------------------------------------------------------------ one sync after another

  /** What the run rows of `k` syncs report together. */
  function Reported(s: State, id: nat, k: nat): nat {
    if k == 0 then 0
    else Reported(s, id, k - 1) + (if id + k - 1 in s.runs then s.runs[id + k - 1].recordsExported else 0)
  }

  lemma {:induction false} ReportedStays(s: State, t: State, id: nat, k: nat)
    requires forall r | r in s.runs && r < id + k :: r in t.runs && t.runs[r] == s.runs[r]
    requires forall r | id <= r < id + k :: r in s.runs
    ensures Reported(s, id, k) == Reported(t, id, k)
  {
    if k > 0 {
      ReportedStays(s, t, id, k - 1);
    }
  }

  lemma OneMoreReported(t: State, u: State, id: nat, k: nat, n: nat)
    requires forall r | r in t.runs && r != id + k :: r in u.runs && u.runs[r] == t.runs[r]
    requires forall r | id <= r < id + k :: r in t.runs
    requires id + k in u.runs && u.runs[id + k].recordsExported == n
    ensures Reported(u, id, k + 1) == Reported(t, id, k) + n
  {
    ReportedStays(t, u, id, k);
  }

  /** The two source tables of a destination. */
  predicate Frozen(s: State, d: DestId, rows: Table, others: Table) {
    d in s.configs && SourceRows(s, d, Interactions) == rows && SourceRows(s, d, FeedbackReports) == others
  }

  lemma FrozenStays(s: State, t: State, d: DestId, rows: Table, others: Table)
    requires Frozen(s, d, rows, others) && t.configs == s.configs && t.sources == s.sources
    ensures Frozen(t, d, rows, others)
  {}

  /** Of `before` pending rows `n` are taken, as many as `limit` allows. */
  predicate TakesUpTo(before: nat, after: nat, n: nat, limit: nat) {
    before == after + n && n <= limit && (after > 0 ==> n == limit)
  }

  lemma TakesIsMin(before: nat, after: nat, n: nat, limit: nat)
    ensures TakesUpTo(before, after, n, limit) <==> n == Min(before, limit) && after == before - Min(before, limit)
  {}

  lemma TakesAddUp(count: nat, left: nat, done: nat, k: nat, left': nat, n: nat)
    requires TakesUpTo(count, left, done, 10000 * k) && TakesUpTo(left, left', n, 10000)
    ensures TakesUpTo(count, left', done + n, 10000 * (k + 1))
  {}

  lemma RunTakesUpTo(rows: Table, others: Table, from: Progress)
    requires Ascending(rows) && Ascending(others) && from.exported == 0
    ensures var to := RunOnce(rows, others, from);
            TakesUpTo(PendingCount(rows, others, from), PendingCount(rows, others, to), to.exported, 10000)
  {
    RunMovesMin(rows, others, from);
  }

  /** A path from one state to another. */
  ghost predicate Linked(s: State, t: State, path: seq<State>, steps: Steps) {
    Path(path, steps) && path[0] == s && path[|steps|] == t
  }

  lemma LinkedTogether(s: State, t: State, u: State, path: seq<State>, steps: Steps, more: seq<State>, taken: Steps)
    requires Linked(s, t, path, steps) && Linked(t, u, more, taken)
    ensures Linked(s, u, path + more[1..], steps + taken)
  {
    PathsTogether(path, steps, more, taken);
  }

  /** One sync, with its steps: `n` rows are reported, which is what one run moves. */
  lemma OneSync(s: State, d: DestId, id: nat, answers: Answers, rows: Table, others: Table, left: nat)
      returns (t: State, n: nat, left': nat, path: seq<State>, steps: Steps)
    requires Ready(s, d, id) && AllFine(answers) && Frozen(s, d, rows, others) && Ascending(rows) && Ascending(others)
    requires left == PendingCount(rows, others, ProgressOf(s, d, 0))
    ensures Linked(s, t, path, steps)
    ensures Synced(s, d, id, t, n) && Frozen(t, d, rows, others)
    ensures left' == PendingCount(rows, others, ProgressOf(t, d, 0)) && TakesUpTo(left, left', n, 10000)
  {
    var to := RunOnce(rows, others, ProgressOf(s, d, 0));
    SyncIsRunOnce(s, d, id, answers);
    RunTakesUpTo(rows, others, ProgressOf(s, d, 0));
    path, steps := SyncTakesSteps(s, d, id, answers);
    t, n := AfterSync(s, d, id, answers), to.exported;
    left' := PendingCount(rows, others, to);
    FrozenStays(s, t, d, rows, others);
  }

  /** After `k` syncs: all recorded as succeeded, and together they report `total` rows. */
  ghost predicate SyncsDone(d: DestId, id: nat, t: State, k: nat, total: nat) {
    && Ready(t, d, id + k) && Reported(t, id, k) == total
    && (forall r | id <= r < id + k :: r in t.runs && t.runs[r].status.Succeeded?)
  }

  lemma OneMoreSync(d: DestId, id: nat, t: State, k: nat, total: nat, u: State, n: nat)
    requires SyncsDone(d, id, t, k, total) && Synced(t, d, id + k, u, n)
    ensures SyncsDone(d, id, u, k + 1, total + n)
  {
    OneMoreReported(t, u, id, k, n);
  }

  lemma NextSync(s: State, d: DestId, id: nat, answers: Answers, k: nat, rows: Table, others: Table, count: nat,
                 before: State, done: nat, rest: nat)
      returns (t: State, total: nat, left: nat, path: seq<State>, steps: Steps)
    requires AllFine(answers) && Ascending(rows) && Ascending(others)
    requires SyncsDone(d, id, before, k, done) && Frozen(before, d, rows, others)
    requires rest == PendingCount(rows, others, ProgressOf(before, d, 0)) && TakesUpTo(count, rest, done, 10000 * k)
    ensures Linked(before, t, path, steps)
    ensures SyncsDone(d, id, t, k + 1, total) && Frozen(t, d, rows, others)
    ensures left == PendingCount(rows, others, ProgressOf(t, d, 0)) && TakesUpTo(count, left, total, 10000 * (k + 1))
  {
    var n;
    t, n, left, path, steps := OneSync(before, d, id + k, answers, rows, others, rest);
    OneMoreSync(d, id, before, k, done, t, n);
    TakesAddUp(count, rest, done, k, left, n);
    total := done + n;
  }

  /** `k` syncs take as many of the pending rows as their caps together allow. */
  lemma {:induction false} SyncsTakeUpTo(s: State, d: DestId, id: nat, answers: Answers, k: nat, rows: Table,
      others: Table, count: nat)
      returns (t: State, total: nat, left: nat, path: seq<State>, steps: Steps)
    requires Ready(s, d, id) && AllFine(answers) && Frozen(s, d, rows, others) && Ascending(rows) && Ascending(others)
    requires count == PendingCount(rows, others, ProgressOf(s, d, 0))
    ensures Linked(s, t, path, steps)
    ensures SyncsDone(d, id, t, k, total) && Frozen(t, d, rows, others)
    ensures left == PendingCount(rows, others, ProgressOf(t, d, 0)) && TakesUpTo(count, left, total, 10000 * k)
    decreases k
  {
    if k == 0 {
      t, total, left, path, steps := s, 0, count, [s], [];
    } else {
      var before, done, rest, more, taken := SyncsTakeUpTo(s, d, id, answers, k - 1, rows, others, count);
      t, total, left, path, steps := NextSync(s, d, id, answers, k - 1, rows, others, count, before, done, rest);
      LinkedTogether(s, before, t, more, taken, path, steps);
      path, steps := more + path[1..], taken + steps;
    }
  }

  /**
   * On a frozen source with so many pending rows over both streams, `k` whole syncs are a
   * path of steps of the system; they are recorded as succeeded, report exactly
   * min(pending, 10000 k) rows together, and leave the others pending.
   */
  lemma SyncsExportMin(s: State, d: DestId, id: nat, answers: Answers, k: nat, rows: Table, others: Table)
      returns (t: State, total: nat, path: seq<State>, steps: Steps)
    requires Ready(s, d, id) && AllFine(answers) && Frozen(s, d, rows, others) && Ascending(rows) && Ascending(others)
    ensures Linked(s, t, path, steps) && SyncsDone(d, id, t, k, total)
    ensures var count := PendingCount(rows, others, ProgressOf(s, d, 0));
            && total == Min(count, 10000 * k)
            && PendingCount(rows, others, ProgressOf(t, d, 0)) == count - total
  {
    var count, left := PendingCount(rows, others, ProgressOf(s, d, 0)), 0;
    t, total, left, path, steps := SyncsTakeUpTo(s, d, id, answers, k, rows, others, count);
    TakesIsMin(count, left, total, 10000 * k);
  }
}
