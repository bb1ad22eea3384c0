/** What one export run, and any number of runs, move on a frozen source. */
module ExportProgress {
  import opened ExportTable
  import opened DestinationStore

  /** Both stream cursors and the number of rows exported so far. */
  datatype Progress = Progress(interactions: Key, reports: Key, exported: nat)

  function Min(a: nat, b: nat): nat {
    if a <= b then a else b
  }

  /** The cursor after the first `count` of the rows pending behind `cursor`. */
  function CursorAt(pending: Table, cursor: Key, count: nat): Key
    requires count <= |pending|
  {
    if count == 0 then cursor else pending[count - 1].key
  }

  /** A run takes the pending interactions first and the pending reports with what is left of its cap. */
  function RunOver(first: Table, second: Table, from: Progress): Progress {
    var a := Min(|first|, RUN_ROW_CAP);
    var b := Min(|second|, RUN_ROW_CAP - a);
    Progress(CursorAt(first, from.interactions, a), CursorAt(second, from.reports, b), from.exported + a + b)
  }

  function RunOnce(interactions: Table, reports: Table, from: Progress): Progress {
    RunOver(After(interactions, from.interactions), After(reports, from.reports), from)
  }

  function Repeat(run: Progress -> Progress, from: Progress, k: nat): Progress {
    if k == 0 then from else run(Repeat(run, from, k - 1))
  }

  function Runs(interactions: Table, reports: Table, from: Progress, k: nat): Progress {
    Repeat(p => RunOnce(interactions, reports, p), from, k)
  }

  function PendingCount(interactions: Table, reports: Table, at: Progress): nat {
    |After(interactions, at.interactions)| + |After(reports, at.reports)|
  }

  /** Moving the cursor over `count` pending rows leaves exactly the others pending. */
  lemma AfterCursorAt(table: Table, cursor: Key, count: nat)
    requires Ascending(table)
    requires count <= |After(table, cursor)|
    ensures After(table, CursorAt(After(table, cursor), cursor, count)) == After(table, cursor)[count..]
    ensures count > 0 ==> Less(cursor, CursorAt(After(table, cursor), cursor, count))
  {
    if count > 0 {
      AfterIsSuffix(table, cursor);
      var after := After(table, cursor);
      var i := |table| - |after| + count - 1;
      assert table[i] == after[count - 1];
      AfterOwnKey(table, i);
      assert after[count..] == table[i + 1..];
    }
  }

  /** Of `pending` rows exactly `min(pending, limit)` are exported, and the others stay pending. */
  predicate MovesMin(pending: nat, exported: nat, pending': nat, exported': nat, limit: nat) {
    exported' == exported + Min(pending, limit) && pending' == pending - Min(pending, limit)
  }

  /** One run on a frozen source exports the pending rows up to its cap. */
  lemma RunMovesMin(interactions: Table, reports: Table, from: Progress)
    requires Ascending(interactions) && Ascending(reports)
    ensures var to := RunOnce(interactions, reports, from);
            MovesMin(PendingCount(interactions, reports, from), from.exported, PendingCount(interactions, reports, to),
                to.exported, RUN_ROW_CAP)
  {
    var first := After(interactions, from.interactions);
    var second := After(reports, from.reports);
    var a := Min(|first|, RUN_ROW_CAP);
    AfterCursorAt(interactions, from.interactions, a);
    AfterCursorAt(reports, from.reports, Min(|second|, RUN_ROW_CAP - a));
  }

  /** The cursors a run moves go strictly forward; the others stay. */
  lemma RunMovesForward(interactions: Table, reports: Table, from: Progress)
    requires Ascending(interactions) && Ascending(reports)
    ensures var to := RunOnce(interactions, reports, from);
            && (to.interactions == from.interactions || Less(from.interactions, to.interactions))
            && (to.reports == from.reports || Less(from.reports, to.reports))
  {
    var first := After(interactions, from.interactions);
    var second := After(reports, from.reports);
    var a := Min(|first|, RUN_ROW_CAP);
    AfterCursorAt(interactions, from.interactions, a);
    AfterCursorAt(reports, from.reports, Min(|second|, RUN_ROW_CAP - a));
  }

  lemma {:induction false} RepeatMovesMin(run: Progress -> Progress, pending: Progress -> nat, from: Progress, k: nat)
    requires forall p :: MovesMin(pending(p), p.exported, pending(run(p)), run(p).exported, RUN_ROW_CAP)
    ensures var to := Repeat(run, from, k);
            MovesMin(pending(from), from.exported, pending(to), to.exported, 10000 * k)
  {
    if k > 0 {
      var prev := Repeat(run, from, k - 1);
      RepeatMovesMin(run, pending, from, k - 1);
      assert MovesMin(pending(prev), prev.exported, pending(run(prev)), run(prev).exported, RUN_ROW_CAP);
    }
  }

  /** `k` runs on a frozen source export exactly `min(N, 10000 k)` of its `N` pending rows. */
  lemma RunsMoveMin(interactions: Table, reports: Table, from: Progress, k: nat)
    requires Ascending(interactions) && Ascending(reports)
    ensures var to := Runs(interactions, reports, from, k);
            MovesMin(PendingCount(interactions, reports, from), from.exported, PendingCount(interactions, reports, to),
                to.exported, 10000 * k)
  {
    var run := p => RunOnce(interactions, reports, p);
    var pending := p => PendingCount(interactions, reports, p);
    forall p ensures MovesMin(pending(p), p.exported, pending(run(p)), run(p).exported, RUN_ROW_CAP) {
      RunMovesMin(interactions, reports, p);
    }
    RepeatMovesMin(run, pending, from, k);
  }
}
