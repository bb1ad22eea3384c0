/**
 * The strong promise: under the time limits every source row at or below a cursor is in the
 * sink at its current version, as long as batches of one workspace for one endpoint take turns.
 */
module ExactSinks {
  import opened ExportTable
  import opened DestinationStore
  import opened ClaimProtocol
  import opened CursorCoverage
  import opened TimelyExports

  /** A worker between fetching a batch and advancing over it. */
  predicate Carrying(phase: Phase) {
    phase.Fetched? || phase.Delivered?
  }

  predicate SharesEndpoint(s: State, d: DestId, e: DestId) {
    d in s.configs && e in s.configs && s.configs[d].endpoint == s.configs[e].endpoint
  }

  predicate SharesConfig(s: State, d: DestId, e: DestId) {
    d in s.configs && e in s.configs && s.configs[d] == s.configs[e]
  }

  /**
   * Another exporter, of whatever destination, deleted or not, has a batch in hand from the
   * same workspace for the same endpoint.
   */
  predicate Rival(s: State, run: RunId, q: RunId) {
    && q != run && run in s.workers && Live(s, q) && Carrying(s.workers[q].phase)
    && SharesConfig(s, s.workers[run].destination, s.workers[q].destination)
  }

  /** A batch is taken in hand only while no rival has one. */
  predicate TakesTurns(s: State, step: Step)
    requires Enabled(s, step)
  {
    step.FetchBatch? && Carrying(Apply(s, step).workers[step.run].phase) ==>
      forall q | q in s.workers :: !Rival(s, step.run, q)
  }

  /** Row ids are UUIDs: an id belongs to one workspace for good. */
  type Owners = nat -> Workspace

  predicate OwnIds(owner: Owners, step: Step) {
    step.Write? ==> owner(step.row.key.id) == step.workspace
  }

  // ------------------------------------------------------------------ what is kept

  /** A fetched batch is still the truth about its key range; its rows may since have moved past it. */
  ghost predicate BatchFresh(rows: Table, cursor: Key, batch: Table) {
    && batch != []
    && (forall row | row in rows && Less(cursor, row.key) && AtMost(row.key, LastKey(batch)) :: row in batch)
    && (forall b | b in batch :: Less(cursor, b.key) && AtMost(b.key, LastKey(batch)))
    && (forall row, b | row in rows && b in batch && row.key.id == b.key.id ::
       row == b || Less(LastKey(batch), row.key))
  }

  ghost predicate ExporterExact(s: State, run: RunId)
    requires run in s.workers
  {
    var w := s.workers[run];
    w.destination in s.configs &&
    match w.phase
    case CursorRead(stream, _, cursor) => cursor == CursorOf(s, w.destination, stream)
    case Fetched(stream, _, cursor, batch) =>
      && cursor == CursorOf(s, w.destination, stream)
      && BatchFresh(JobSource(s, w, stream).rows, cursor, batch)
      && AtMost(LastKey(batch), JobSource(s, w, stream).high)
    case Delivered(stream, _, cursor, batch) =>
      && batch != []
      && CursorCovered(s, w.destination, stream, LastKey(batch), true)
    case _ => true
  }

  /** A row of the batch is the source's current row, or that row has moved past the cursor. */
  ghost predicate Harmless(rows: Table, cursor: Key, batch: Table) {
    forall row, b | row in rows && b in batch && row.key.id == b.key.id :: row == b || Less(cursor, row.key)
  }

  ghost predicate ExactCursors(s: State) {
    && (forall k | k in s.cursors :: k.0 in s.dests)
    && (forall d | d in s.dests :: d in s.configs)
    && (forall d, stream | d in s.dests :: CursorCovered(s, d, stream, CursorOf(s, d, stream), true))
  }

  ghost predicate ExactExporters(s: State) {
    forall run | Live(s, run) && s.workers[run].destination in s.dests :: ExporterExact(s, run)
  }

  /** No batch still to be delivered can put an old row below any cursor of its endpoint. */
  ghost predicate HarmlessBatches(s: State) {
    forall run, e | Live(s, run) && s.workers[run].phase.Fetched? && e in s.dests
      && SharesEndpoint(s, s.workers[run].destination, e) ::
      HarmlessTo(s, s.workers[run].phase, e)
  }

  ghost predicate HarmlessTo(s: State, phase: Phase, e: DestId)
    requires phase.Fetched? && e in s.configs
  {
    Harmless(SourceOf(s, s.configs[e].workspace, phase.stream).rows, CursorOf(s, e, phase.stream), phase.batch)
  }

  ghost predicate OneCarrier(s: State) {
    forall run, q | Live(s, run) && Carrying(s.workers[run].phase) :: !Rival(s, run, q)
  }

  ghost predicate ExactInv(s: State) {
    SourcesWellFormed(s) && ExactCursors(s) && ExactExporters(s) && HarmlessBatches(s) && OneCarrier(s)
  }

  /** Every row in a source or in hand belongs to its workspace. */
  ghost predicate OwnedInv(owner: Owners, s: State) {
    && (forall k, row | k in s.sources && row in s.sources[k].rows :: owner(row.key.id) == k.0)
    && (forall run | run in s.workers && Carrying(s.workers[run].phase) :: BatchOwned(owner, s, s.workers[run]))
  }

  ghost predicate BatchOwned(owner: Owners, s: State, w: Worker)
    requires Carrying(w.phase)
  {
    w.destination in s.configs && forall b | b in w.phase.batch :: owner(b.key.id) == s.configs[w.destination].workspace
  }

  /** What the exporters' proofs need of the claim protocol. */
  ghost predicate Exclusive(s: State) {
    && (forall r | r in s.workers :: s.workers[r].destination in s.configs)
    && (forall r, q | Live(s, r) && Live(s, q) && s.workers[r].destination == s.workers[q].destination :: r == q)
  }

  /** Rows of different workspaces have different ids, so a batch cannot harm another workspace's rows. */
  lemma ForeignIsHarmless(owner: Owners, s: State, run: RunId, part: Table, workspace: Workspace, stream: Stream,
      cursor: Key)
    requires OwnedInv(owner, s) && run in s.workers && Carrying(s.workers[run].phase)
    requires s.workers[run].destination in s.configs && s.configs[s.workers[run].destination].workspace != workspace
    requires forall b | b in part :: b in s.workers[run].phase.batch
    ensures Harmless(SourceOf(s, workspace, stream).rows, cursor, part)
  {
    assert BatchOwned(owner, s, s.workers[run]);
    forall row, b | row in SourceOf(s, workspace, stream).rows && b in part ensures row.key.id != b.key.id {
      assert owner(row.key.id) == workspace;
    }
  }

  lemma SingleIsExclusive(s: State)
    requires SingleInv(s)
    ensures Exclusive(s)
  {
    forall r | r in s.workers ensures s.workers[r].destination in s.configs {
      assert WorkerKnown(s, r);
    }
  }

  // ------------------------------------------------------------------ ids

  lemma WriteKeepsOwned(owner: Owners, s: State, step: Step)
    requires OwnedInv(owner, s) && Enabled(s, step) && step.Write? && OwnIds(owner, step)
    ensures OwnedInv(owner, Apply(s, step))
  {
    WithoutKeeps(SourceOf(s, step.workspace, step.stream).rows, step.row.key.id);
  }

  lemma PurgeKeepsOwned(owner: Owners, s: State, step: Step)
    requires OwnedInv(owner, s) && Enabled(s, step) && step.Purge?
    ensures OwnedInv(owner, Apply(s, step))
  {
    WithoutKeeps(SourceOf(s, step.workspace, step.stream).rows, step.id);
  }

  lemma FetchKeepsOwned(owner: Owners, s: State, run: RunId)
    requires OwnedInv(owner, s) && Exclusive(s) && SourcesWellFormed(s) && Enabled(s, FetchBatch(run))
    ensures OwnedInv(owner, Apply(s, FetchBatch(run)))
  {
    var w := s.workers[run];
    var src := JobSource(s, w, w.phase.stream);
    SourceWellFormed(s, s.configs[w.destination].workspace, w.phase.stream);
    FetchIsNextRun(src.rows, w.phase.cursor, BatchLimit(w.phase.total));
  }

  lemma WorkerKeepsOwned(owner: Owners, s: State, step: Step)
    requires OwnedInv(owner, s) && Enabled(s, step)
    requires step.Claim? || step.StartDrain? || step.ReadCursor? || step.Deliver? || step.DeliverInPart?
             || step.Advance? || step.Fail? || step.TimeOut? || step.Finish? || step.Crash?
    ensures OwnedInv(owner, Apply(s, step))
  {}

  lemma TableKeepsOwned(owner: Owners, s: State, step: Step)
    requires OwnedInv(owner, s) && Enabled(s, step)
    requires step.Tick? || step.Create? || step.Update? || step.Delete? || step.ReleaseStale?
    ensures OwnedInv(owner, Apply(s, step))
  {}

  lemma StepKeepsOwned(owner: Owners, s: State, step: Step)
    requires OwnedInv(owner, s) && Exclusive(s) && SourcesWellFormed(s) && Enabled(s, step) && OwnIds(owner, step)
    ensures OwnedInv(owner, Apply(s, step))
  {
    if step.Write? {
      WriteKeepsOwned(owner, s, step);
    } else if step.Purge? {
      PurgeKeepsOwned(owner, s, step);
    } else if step.FetchBatch? {
      FetchKeepsOwned(owner, s, step.run);
    } else if step.Tick? || step.Create? || step.Update? || step.Delete? || step.ReleaseStale? {
      TableKeepsOwned(owner, s, step);
    } else {
      WorkerKeepsOwned(owner, s, step);
    }
  }

  // ------------------------------------------------------------------ quiet steps

  /** A source step can move a batch's rows only past the batch's end. */
  ghost predicate RowsMoveUp(s: State, t: State) {
    forall workspace, stream :: MovesUp(SourceOf(s, workspace, stream), SourceOf(t, workspace, stream))
  }

  ghost predicate MovesUp(a: Source, b: Source) {
    NothingNewBelow(a, b) && forall row | row in b.rows :: row in a.rows || Less(a.high, row.key)
  }

  lemma CursorQuiet(s: State, t: State, d: DestId, stream: Stream, cursor: Key)
    requires t.configs == s.configs && d in s.configs && RowsMoveUp(s, t)
    requires SinkOf(t, s.configs[d].endpoint) == SinkOf(s, s.configs[d].endpoint)
    requires CursorCovered(s, d, stream, cursor, true)
    ensures CursorCovered(t, d, stream, cursor, true)
  {
    assert MovesUp(SourceOf(s, s.configs[d].workspace, stream), SourceOf(t, s.configs[d].workspace, stream));
  }

  lemma FreshStaysFresh(a: Source, b: Source, cursor: Key, batch: Table)
    requires BatchFresh(a.rows, cursor, batch) && AtMost(LastKey(batch), a.high) && MovesUp(a, b)
    ensures BatchFresh(b.rows, cursor, batch) && AtMost(LastKey(batch), b.high)
  {
    var last := LastKey(batch);
    forall row | row in b.rows && Less(cursor, row.key) && AtMost(row.key, last) ensures row in batch {
      assert row in a.rows;
    }
  }

  lemma ExporterQuiet(s: State, t: State, run: RunId)
    requires run in s.workers && run in t.workers && ExporterExact(s, run)
    requires t.configs == s.configs && RowsMoveUp(s, t)
    requires t.workers[run].destination == s.workers[run].destination && t.workers[run].phase == s.workers[run].phase
    requires var d := s.workers[run].destination;
             && (forall stream :: CursorOf(t, d, stream) == CursorOf(s, d, stream))
             && (s.workers[run].phase.Delivered? ==>
                SinkOf(t, s.configs[d].endpoint) == SinkOf(s, s.configs[d].endpoint))
    ensures ExporterExact(t, run)
  {
    var w := s.workers[run];
    match w.phase
    case Fetched(stream, _, cursor, batch) =>
      assert MovesUp(JobSource(s, w, stream), JobSource(t, w, stream));
      FreshStaysFresh(JobSource(s, w, stream), JobSource(t, w, stream), cursor, batch);
    case Delivered(stream, _, _, batch) => CursorQuiet(s, t, w.destination, stream, LastKey(batch));
    case _ =>
  }

  lemma HarmlessMovesUp(a: Source, b: Source, cursor: Key, batch: Table)
    requires Harmless(a.rows, cursor, batch) && AtMost(cursor, a.high) && MovesUp(a, b)
    ensures Harmless(b.rows, cursor, batch)
  {}

  /** Live workers of `t` outside `moved` are live workers of `s`, where they were. */
  ghost predicate Stay(s: State, t: State, moved: set<RunId>) {
    forall run | Live(t, run) && run !in moved ::
      Live(s, run) && t.workers[run].destination == s.workers[run].destination
          && t.workers[run].phase == s.workers[run].phase
  }

  /** Workers that moved have no batch in hand. */
  ghost predicate EmptyHanded(t: State, moved: set<RunId>) {
    forall run | Live(t, run) && run in moved :: !Carrying(t.workers[run].phase)
  }

  lemma HarmlessQuiet(s: State, t: State, moved: set<RunId>)
    requires ExactCursors(s) && HarmlessBatches(s) && Stay(s, t, moved) && EmptyHanded(t, moved)
    requires t.configs == s.configs && RowsMoveUp(s, t) && t.dests.Keys <= s.dests.Keys
    requires forall d, stream | d in t.dests :: CursorOf(t, d, stream) == CursorOf(s, d, stream)
    ensures HarmlessBatches(t)
  {
    forall run, e | Live(t, run) && t.workers[run].phase.Fetched? && e in t.dests
      && SharesEndpoint(t, t.workers[run].destination, e)
      ensures HarmlessTo(t, t.workers[run].phase, e)
    {
      assert run !in moved;
      HarmlessToQuiet(s, t, s.workers[run].phase, e);
    }
  }

  lemma HarmlessToQuiet(s: State, t: State, phase: Phase, e: DestId)
    requires phase.Fetched? && e in s.dests && e in s.configs && HarmlessTo(s, phase, e) && ExactCursors(s)
    requires t.configs == s.configs && RowsMoveUp(s, t) && CursorOf(t, e, phase.stream) == CursorOf(s, e, phase.stream)
    ensures HarmlessTo(t, phase, e)
  {
    var a, b := SourceOf(s, s.configs[e].workspace, phase.stream), SourceOf(t, s.configs[e].workspace, phase.stream);
    assert CursorCovered(s, e, phase.stream, CursorOf(s, e, phase.stream), true);
    assert MovesUp(a, b);
    HarmlessMovesUp(a, b, CursorOf(s, e, phase.stream), phase.batch);
  }

  lemma CarriersStay(s: State, t: State, moved: set<RunId>)
    requires OneCarrier(s) && Stay(s, t, moved) && EmptyHanded(t, moved)
    requires forall d | d in s.configs :: d in t.configs && t.configs[d] == s.configs[d]
    requires forall run | run in s.workers :: s.workers[run].destination in s.configs
    ensures OneCarrier(t)
  {
    forall run, q | Live(t, run) && Carrying(t.workers[run].phase) ensures !Rival(t, run, q) {
      assert run !in moved;
      assert !Rival(s, run, q);
      assert Live(t, q) && q in moved ==> !Carrying(t.workers[q].phase);
    }
  }

  /** Steps that write no sink and move no cursor: what holds of sources carries everything over. */
  lemma QuietKeepsExact(s: State, t: State, moved: set<RunId>)
    requires ExactInv(s) && Exclusive(s) && SourcesWellFormed(t)
    requires t.configs == s.configs && t.sinks == s.sinks && RowsMoveUp(s, t)
    requires t.dests.Keys <= s.dests.Keys
    requires forall k | k in t.cursors :: k.0 in t.dests
    requires forall d, stream | d in t.dests :: CursorOf(t, d, stream) == CursorOf(s, d, stream)
    requires Stay(s, t, moved) && EmptyHanded(t, moved)
    requires forall run | Live(t, run) && run in moved && t.workers[run].destination in t.dests :: ExporterExact(t, run)
    ensures ExactInv(t)
  {
    forall d, stream | d in t.dests ensures CursorCovered(t, d, stream, CursorOf(t, d, stream), true) {
      assert CursorCovered(s, d, stream, CursorOf(s, d, stream), true);
      CursorQuiet(s, t, d, stream, CursorOf(s, d, stream));
    }
    forall run | Live(t, run) && t.workers[run].destination in t.dests ensures ExporterExact(t, run) {
      if run !in moved {
        assert ExporterExact(s, run);
        ExporterQuiet(s, t, run);
      }
    }
    HarmlessQuiet(s, t, moved);
    CarriersStay(s, t, moved);
  }

  lemma SameSourcesMoveUp(s: State, t: State)
    requires t.sources == s.sources
    ensures RowsMoveUp(s, t)
  {}

  lemma WriteKeepsExact(s: State, step: Step)
    requires ExactInv(s) && Exclusive(s) && Enabled(s, step) && step.Write?
    ensures ExactInv(Apply(s, step))
  {
    WriteMovesUp(s, step);
    QuietKeepsExact(s, Apply(s, step), {});
  }

  lemma WriteMovesUp(s: State, step: Step)
    requires SourcesWellFormed(s) && Enabled(s, step) && step.Write?
    ensures SourcesWellFormed(Apply(s, step)) && RowsMoveUp(s, Apply(s, step))
  {
    var src := SourceOf(s, step.workspace, step.stream);
    SourceWellFormed(s, step.workspace, step.stream);
    WriteAddsOnTop(src, step.row);
    WithoutKeeps(src.rows, step.row.key.id);
  }

  lemma PurgeKeepsExact(s: State, step: Step)
    requires ExactInv(s) && Exclusive(s) && Enabled(s, step) && step.Purge?
    ensures ExactInv(Apply(s, step))
  {
    PurgeMovesUp(s, step);
    QuietKeepsExact(s, Apply(s, step), {});
  }

  lemma PurgeMovesUp(s: State, step: Step)
    requires SourcesWellFormed(s) && Enabled(s, step) && step.Purge?
    ensures SourcesWellFormed(Apply(s, step)) && RowsMoveUp(s, Apply(s, step))
  {
    var src := SourceOf(s, step.workspace, step.stream);
    SourceWellFormed(s, step.workspace, step.stream);
    PurgeAddsNothing(src, step.id);
    WithoutKeeps(src.rows, step.id);
  }

  lemma TableStepKeepsExact(s: State, step: Step)
    requires ExactInv(s) && Exclusive(s) && Enabled(s, step)
    requires step.Tick? || step.Update? || step.ReleaseStale?
    ensures ExactInv(Apply(s, step))
  {
    SameSourcesMoveUp(s, Apply(s, step));
    QuietKeepsExact(s, Apply(s, step), {});
  }

  /** A worker that leaves or ends makes no promise any more. */
  lemma LeaveStepKeepsExact(s: State, step: Step)
    requires ExactInv(s) && Exclusive(s) && Enabled(s, step)
    requires step.Fail? || step.TimeOut?
    ensures ExactInv(Apply(s, step))
  {
    SameSourcesMoveUp(s, Apply(s, step));
    QuietKeepsExact(s, Apply(s, step), {step.run});
  }

  lemma EndStepKeepsExact(s: State, step: Step)
    requires ExactInv(s) && Exclusive(s) && Enabled(s, step)
    requires step.Finish? || step.Crash?
    ensures ExactInv(Apply(s, step))
  {
    SameSourcesMoveUp(s, Apply(s, step));
    QuietKeepsExact(s, Apply(s, step), {step.run});
  }

  /** A worker that is claimed or starts has promised nothing yet. */
  lemma BeginStepKeepsExact(s: State, step: Step)
    requires ExactInv(s) && Exclusive(s) && Enabled(s, step) && Exclusive(Apply(s, step))
    requires step.Claim? || step.StartDrain?
    ensures ExactInv(Apply(s, step))
  {
    SameSourcesMoveUp(s, Apply(s, step));
    QuietKeepsExact(s, Apply(s, step), {step.run});
  }

  lemma DeleteKeepsExact(s: State, d: DestId)
    requires ExactInv(s) && Exclusive(s) && Enabled(s, Delete(d))
    ensures ExactInv(Apply(s, Delete(d)))
  {
    SameSourcesMoveUp(s, Apply(s, Delete(d)));
    QuietKeepsExact(s, Apply(s, Delete(d)), {});
  }

  lemma ReadCursorKeepsExact(s: State, run: RunId)
    requires ExactInv(s) && Exclusive(s) && Enabled(s, ReadCursor(run))
    ensures ExactInv(Apply(s, ReadCursor(run)))
  {
    var t := Apply(s, ReadCursor(run));
    SameSourcesMoveUp(s, t);
    QuietKeepsExact(s, t, {run});
  }

  // ------------------------------------------------------------------ fetching

  lemma FetchIsFresh(src: Source, cursor: Key, limit: nat)
    requires WellFormed(src.rows, src.high)
    requires Fetch(src.rows, cursor, limit) != []
    ensures var batch := Fetch(src.rows, cursor, limit);
            BatchFresh(src.rows, cursor, batch) && AtMost(LastKey(batch), src.high)
  {
    FetchReaches(src, cursor, limit);
    var batch := Fetch(src.rows, cursor, limit);
    forall row, b | row in src.rows && b in batch && row.key.id == b.key.id ensures row == b {
      OneRowPerId(src.rows, row, b);
    }
  }

  lemma OneRowPerId(rows: Table, a: Row, b: Row)
    requires DistinctIds(rows) && a in rows && b in rows && a.key.id == b.key.id
    ensures a == b
  {
    var i :| 0 <= i < |rows| && rows[i] == a;
    var j :| 0 <= j < |rows| && rows[j] == b;
    assert i == j;
  }

  /** A batch just fetched holds current rows only, for every workspace. */
  lemma FetchIsHarmless(owner: Owners, s: State, w: Worker, workspace: Workspace, stream: Stream, cursor: Key,
      limit: nat, other: Key)
    requires OwnedInv(owner, s) && SourcesWellFormed(s) && w.destination in s.configs
    ensures Harmless(SourceOf(s, workspace, stream).rows, other, Fetch(JobSource(s, w, stream).rows, cursor, limit))
  {
    var own := s.configs[w.destination].workspace;
    var src := SourceOf(s, own, stream);
    SourceWellFormed(s, own, stream);
    FetchIsNextRun(src.rows, cursor, limit);
    forall row, b | row in SourceOf(s, workspace, stream).rows && b in Fetch(src.rows, cursor, limit)
      && row.key.id == b.key.id
      ensures row == b
    {
      assert b in src.rows;
      assert owner(row.key.id) == workspace && owner(b.key.id) == own;
      OneRowPerId(src.rows, row, b);
    }
  }

  lemma TakenKeepsCursors(s: State, t: State)
    requires ExactCursors(s)
    requires t.dests == s.dests && t.cursors == s.cursors && t.sources == s.sources && t.configs == s.configs
             && t.sinks == s.sinks
    ensures ExactCursors(t)
  {
    forall d, stream | d in t.dests ensures CursorCovered(t, d, stream, CursorOf(t, d, stream), true) {
      assert CursorCovered(s, d, stream, CursorOf(s, d, stream), true);
    }
  }

  lemma TakenIsExact(s: State, run: RunId)
    requires ExactInv(s) && Exclusive(s) && Enabled(s, FetchBatch(run)) && Live(s, run)
             && s.workers[run].destination in s.dests
    ensures ExporterExact(Apply(s, FetchBatch(run)), run)
  {
    var t, w := Apply(s, FetchBatch(run)), s.workers[run];
    assert ExporterExact(s, run);
    if t.workers[run].phase.Fetched? {
      SourceWellFormed(s, s.configs[w.destination].workspace, w.phase.stream);
      FetchIsFresh(JobSource(s, w, w.phase.stream), w.phase.cursor, BatchLimit(w.phase.total));
    }
  }

  lemma TakenKeepsExporters(s: State, run: RunId)
    requires ExactInv(s) && Exclusive(s) && Enabled(s, FetchBatch(run)) && Live(s, run)
    ensures ExactExporters(Apply(s, FetchBatch(run)))
  {
    var t := Apply(s, FetchBatch(run));
    SameSourcesMoveUp(s, t);
    forall r | Live(t, r) && t.workers[r].destination in t.dests ensures ExporterExact(t, r) {
      if r == run {
        TakenIsExact(s, run);
      } else {
        assert Live(s, r) && ExporterExact(s, r);
        ExporterQuiet(s, t, r);
      }
    }
  }

  lemma TakenIsHarmless(owner: Owners, s: State, run: RunId)
    requires ExactInv(s) && Exclusive(s) && OwnedInv(owner, s) && Enabled(s, FetchBatch(run))
    ensures HarmlessBatches(Apply(s, FetchBatch(run)))
  {
    var t, w := Apply(s, FetchBatch(run)), s.workers[run];
    forall r, e | Live(t, r) && t.workers[r].phase.Fetched? && e in t.dests
      && SharesEndpoint(t, t.workers[r].destination, e)
      ensures HarmlessTo(t, t.workers[r].phase, e)
    {
      if r == run {
        var stream := w.phase.stream;
        FetchIsHarmless(owner, s, w, s.configs[e].workspace, stream, w.phase.cursor, BatchLimit(w.phase.total),
            CursorOf(s, e, stream));
      } else {
        assert Live(s, r) && HarmlessTo(s, s.workers[r].phase, e);
      }
    }
  }

  lemma TakenIsAlone(s: State, run: RunId)
    requires OneCarrier(s) && Enabled(s, FetchBatch(run)) && TakesTurns(s, FetchBatch(run))
    ensures OneCarrier(Apply(s, FetchBatch(run)))
  {
    var t := Apply(s, FetchBatch(run));
    forall r, q | Live(t, r) && Carrying(t.workers[r].phase) ensures !Rival(t, r, q) {
      if r != run && q != run {
        assert !Rival(s, r, q);
      } else if r == run && q in s.workers {
        assert Carrying(t.workers[run].phase) ==> !Rival(s, run, q);
      } else if q == run && r in s.workers {
        assert Carrying(t.workers[run].phase) ==> !Rival(s, run, r);
      }
    }
  }

  lemma FetchKeepsExact(owner: Owners, s: State, run: RunId)
    requires ExactInv(s) && Exclusive(s) && OwnedInv(owner, s) && Enabled(s, FetchBatch(run)) && Live(s, run)
    requires TakesTurns(s, FetchBatch(run))
    ensures ExactInv(Apply(s, FetchBatch(run)))
  {
    TakenKeepsCursors(s, Apply(s, FetchBatch(run)));
    TakenKeepsExporters(s, run);
    TakenIsHarmless(owner, s, run);
    TakenIsAlone(s, run);
  }

  // ------------------------------------------------------------------ delivering

  /** Delivering rows that are current, or past the cursor, keeps what is at or below the cursor. */
  lemma HarmlessSendCovers(rows: Table, sink: Sink, stream: Stream, cursor: Key, part: Table)
    requires Covered(rows, sink, stream, cursor, true) && Harmless(rows, cursor, part)
    ensures Covered(rows, Upsert(sink, stream, part), stream, cursor, true)
  {
    UpsertKeys(sink, stream, part);
    UpsertValues(sink, stream, part);
    var after := Upsert(sink, stream, part);
    forall row | row in rows && AtMost(row.key, cursor)
      ensures SinkKey(stream, row.key.id) in after && after[SinkKey(stream, row.key.id)] == row
    {
      if Carries(part, row.key.id) {
        assert after[SinkKey(stream, row.key.id)] in part;
      }
    }
  }

  lemma OtherStreamCovers(rows: Table, sink: Sink, stream: Stream, cursor: Key, other: Stream, part: Table)
    requires Covered(rows, sink, stream, cursor, true) && other != stream
    ensures Covered(rows, Upsert(sink, other, part), stream, cursor, true)
  {
    UpsertKeys(sink, other, part);
    UpsertValues(sink, other, part);
  }

  /** Delivering a whole fresh batch covers its range exactly. */
  lemma SendCoversBatch(rows: Table, sink: Sink, stream: Stream, cursor: Key, batch: Table)
    requires Covered(rows, sink, stream, cursor, true) && Harmless(rows, cursor, batch)
             && BatchFresh(rows, cursor, batch)
    ensures Covered(rows, Upsert(sink, stream, batch), stream, LastKey(batch), true)
  {
    HarmlessSendCovers(rows, sink, stream, cursor, batch);
    UpsertKeys(sink, stream, batch);
    UpsertValues(sink, stream, batch);
    var after := Upsert(sink, stream, batch);
    forall row | row in rows && Less(cursor, row.key) && AtMost(row.key, LastKey(batch))
      ensures SinkKey(stream, row.key.id) in after && after[SinkKey(stream, row.key.id)] == row
    {
      assert row in batch;
      var i :| 0 <= i < |batch| && batch[i] == row;
      assert Carries(batch, row.key.id);
      assert after[SinkKey(stream, row.key.id)] in batch;
    }
  }

  /** A delivery of part of a batch in hand, by whichever worker, keeps every cursor exact. */
  lemma SendKeepsCursors(s: State, run: RunId, part: Table)
    requires ExactInv(s) && Exclusive(s) && Live(s, run) && s.workers[run].phase.Fetched?
    requires forall row | row in part :: row in s.workers[run].phase.batch
    ensures ExactCursors(s.(sinks := SendTo(s, s.workers[run], s.workers[run].phase.stream, part)))
  {
    var w := s.workers[run];
    var t := s.(sinks := SendTo(s, w, w.phase.stream, part));
    forall d, stream | d in t.dests ensures CursorCovered(t, d, stream, CursorOf(t, d, stream), true) {
      SendKeepsCursor(s, run, part, d, stream);
    }
  }

  lemma SendKeepsCursor(s: State, run: RunId, part: Table, d: DestId, stream: Stream)
    requires ExactInv(s) && Exclusive(s) && Live(s, run) && s.workers[run].phase.Fetched? && d in s.dests
    requires forall row | row in part :: row in s.workers[run].phase.batch
    ensures CursorCovered(s.(sinks := SendTo(s, s.workers[run], s.workers[run].phase.stream, part)), d, stream,
            CursorOf(s, d, stream), true)
  {
    var w := s.workers[run];
    var rows, cursor := SourceOf(s, s.configs[d].workspace, stream).rows, CursorOf(s, d, stream);
    assert CursorCovered(s, d, stream, cursor, true);
    if SharesEndpoint(s, w.destination, d) {
      if stream == w.phase.stream {
        assert HarmlessTo(s, w.phase, d);
        HarmlessSendCovers(rows, SinkOf(s, s.configs[d].endpoint), stream, cursor, part);
      } else {
        OtherStreamCovers(rows, SinkOf(s, s.configs[d].endpoint), stream, cursor, w.phase.stream, part);
      }
    }
  }

  /** The exporter that delivered its batch has everything up to the batch's end in the sink. */
  lemma DelivererIsExact(s: State, run: RunId)
    requires ExactInv(s) && Exclusive(s) && Enabled(s, Deliver(run)) && Live(s, run)
             && s.workers[run].destination in s.dests
    ensures ExporterExact(Apply(s, Deliver(run)), run)
  {
    var w := s.workers[run];
    var d, stream := w.destination, w.phase.stream;
    assert ExporterExact(s, run);
    assert CursorCovered(s, d, stream, CursorOf(s, d, stream), true);
    assert HarmlessTo(s, w.phase, d);
    SendCoversBatch(JobSource(s, w, stream).rows, SinkOf(s, s.configs[d].endpoint), stream, w.phase.cursor,
        w.phase.batch);
  }

  /** What a worker of another workspace has delivered to the same endpoint stays in its sink. */
  lemma SendSparesForeign(owner: Owners, s: State, t: State, run: RunId, part: Table, r: RunId)
    requires OwnedInv(owner, s) && run in s.workers && s.workers[run].phase.Fetched?
    requires forall row | row in part :: row in s.workers[run].phase.batch
    requires t.sinks == SendTo(s, s.workers[run], s.workers[run].phase.stream, part)
    requires t.sources == s.sources && t.configs == s.configs
    requires r in s.workers && r in t.workers && t.workers[r] == s.workers[r]
    requires s.workers[r].phase.Delivered? && ExporterExact(s, r)
    requires SharesEndpoint(s, s.workers[run].destination, s.workers[r].destination)
    requires !SharesConfig(s, s.workers[run].destination, s.workers[r].destination)
    ensures ExporterExact(t, r)
  {
    var w, config := s.workers[r], s.configs[s.workers[r].destination];
    var rows, cursor := SourceOf(s, config.workspace, w.phase.stream).rows, LastKey(w.phase.batch);
    if w.phase.stream == s.workers[run].phase.stream {
      ForeignIsHarmless(owner, s, run, part, config.workspace, w.phase.stream, cursor);
      HarmlessSendCovers(rows, SinkOf(s, config.endpoint), w.phase.stream, cursor, part);
    } else {
      OtherStreamCovers(rows, SinkOf(s, config.endpoint), w.phase.stream, cursor, s.workers[run].phase.stream, part);
    }
  }

  /** The other live exporters have other endpoints or workspaces, or have delivered nothing yet. */
  lemma SendSparesOthers(owner: Owners, s: State, t: State, run: RunId, part: Table)
    requires ExactInv(s) && Exclusive(s) && OwnedInv(owner, s) && Live(s, run) && s.workers[run].phase.Fetched?
    requires forall row | row in part :: row in s.workers[run].phase.batch
    requires t.sinks == SendTo(s, s.workers[run], s.workers[run].phase.stream, part)
    requires t.now == s.now && t.dests == s.dests && t.cursors == s.cursors && t.sources == s.sources
             && t.configs == s.configs
    requires forall r | r in t.workers && r != run :: r in s.workers && t.workers[r] == s.workers[r]
    requires Live(t, run) && t.workers[run].destination in t.dests ==> ExporterExact(t, run)
    ensures ExactExporters(t)
  {
    SameSourcesMoveUp(s, t);
    forall r | Live(t, r) && t.workers[r].destination in t.dests ensures ExporterExact(t, r) {
      if r != run {
        assert Live(s, r) && ExporterExact(s, r);
        assert s.workers[r].phase.Delivered? ==> !Rival(s, run, r);
        if s.workers[r].phase.Delivered? && SharesEndpoint(s, s.workers[run].destination, s.workers[r].destination) {
          SendSparesForeign(owner, s, t, run, part, r);
        } else {
          ExporterQuiet(s, t, r);
        }
      }
    }
  }

  lemma SendKeepsRest(s: State, t: State, run: RunId)
    requires ExactInv(s) && run in t.workers && run in s.workers
    requires t.now == s.now && t.dests == s.dests && t.cursors == s.cursors && t.sources == s.sources
             && t.configs == s.configs
    requires forall r | r in t.workers && r != run :: r in s.workers && t.workers[r] == s.workers[r]
    requires Live(s, run) && s.workers[run].phase.Fetched? && t.workers[run].destination == s.workers[run].destination
    requires !t.workers[run].phase.Fetched?
    ensures HarmlessBatches(t) && OneCarrier(t)
  {
    forall r, e | Live(t, r) && t.workers[r].phase.Fetched? && e in t.dests
      && SharesEndpoint(t, t.workers[r].destination, e)
      ensures HarmlessTo(t, t.workers[r].phase, e)
    {
      assert Live(s, r) && HarmlessTo(s, s.workers[r].phase, e);
    }
    forall r, q | Live(t, r) && Carrying(t.workers[r].phase) ensures !Rival(t, r, q) {
      assert Live(s, r) ==> !Rival(s, r, q);
    }
  }

  lemma DeliverKeepsExact(owner: Owners, s: State, run: RunId)
    requires ExactInv(s) && Exclusive(s) && OwnedInv(owner, s) && Enabled(s, Deliver(run)) && Live(s, run)
    ensures ExactInv(Apply(s, Deliver(run)))
  {
    var t, batch := Apply(s, Deliver(run)), s.workers[run].phase.batch;
    SendKeepsCursors(s, run, batch);
    TakenKeepsCursors(s.(sinks := SendTo(s, s.workers[run], s.workers[run].phase.stream, batch)), t);
    if s.workers[run].destination in s.dests {
      DelivererIsExact(s, run);
    }
    SendSparesOthers(owner, s, t, run, batch);
    SendKeepsRest(s, t, run);
  }

  lemma DeliverInPartKeepsExact(owner: Owners, s: State, run: RunId, part: Table, error: string)
    requires ExactInv(s) && Exclusive(s) && OwnedInv(owner, s)
    requires Enabled(s, DeliverInPart(run, part, error)) && Live(s, run)
    ensures ExactInv(Apply(s, DeliverInPart(run, part, error)))
  {
    var t := Apply(s, DeliverInPart(run, part, error));
    SendKeepsCursors(s, run, part);
    TakenKeepsCursors(s.(sinks := SendTo(s, s.workers[run], s.workers[run].phase.stream, part)), t);
    SendSparesOthers(owner, s, t, run, part);
    SendKeepsRest(s, t, run);
  }

  // ------------------------------------------------------------------ advancing and creating

  lemma AdvanceKeepsCursors(s: State, run: RunId)
    requires ExactInv(s) && Enabled(s, Advance(run)) && Live(s, run)
    ensures ExactCursors(Apply(s, Advance(run)))
  {
    var t := Apply(s, Advance(run));
    assert ExporterExact(s, run);
    forall d, stream | d in t.dests ensures CursorCovered(t, d, stream, CursorOf(t, d, stream), true) {
      assert CursorCovered(s, d, stream, CursorOf(s, d, stream), true);
    }
  }

  lemma AdvanceKeepsExporters(s: State, run: RunId)
    requires ExactInv(s) && Exclusive(s) && Enabled(s, Advance(run)) && Live(s, run)
    ensures ExactExporters(Apply(s, Advance(run)))
  {
    var t := Apply(s, Advance(run));
    SameSourcesMoveUp(s, t);
    forall r | Live(t, r) && t.workers[r].destination in t.dests ensures ExporterExact(t, r) {
      if r != run {
        assert Live(s, r) && ExporterExact(s, r);
        assert s.workers[r].destination != s.workers[run].destination;
        ExporterQuiet(s, t, r);
      }
    }
  }

  /** Whoever still holds a fetched batch has another endpoint or workspace than the cursor that moves. */
  lemma AdvanceKeepsHarmless(owner: Owners, s: State, run: RunId)
    requires ExactInv(s) && Exclusive(s) && OwnedInv(owner, s) && Enabled(s, Advance(run)) && Live(s, run)
    ensures HarmlessBatches(Apply(s, Advance(run)))
  {
    var t := Apply(s, Advance(run));
    forall r, e | Live(t, r) && t.workers[r].phase.Fetched? && e in t.dests
      && SharesEndpoint(t, t.workers[r].destination, e)
      ensures HarmlessTo(t, t.workers[r].phase, e)
    {
      assert Live(s, r) && HarmlessTo(s, s.workers[r].phase, e);
      assert !Rival(s, run, r);
      if e == s.workers[run].destination {
        var phase, workspace := s.workers[r].phase, s.configs[e].workspace;
        ForeignIsHarmless(owner, s, r, phase.batch, workspace, phase.stream, CursorOf(t, e, phase.stream));
      }
    }
  }

  lemma AdvanceKeepsAlone(s: State, run: RunId)
    requires OneCarrier(s) && Enabled(s, Advance(run)) && Live(s, run)
    ensures OneCarrier(Apply(s, Advance(run)))
  {
    var t := Apply(s, Advance(run));
    forall r, q | Live(t, r) && Carrying(t.workers[r].phase) ensures !Rival(t, r, q) {
      assert Live(s, r) && !Rival(s, r, q);
    }
  }

  lemma AdvanceKeepsExact(owner: Owners, s: State, run: RunId)
    requires ExactInv(s) && Exclusive(s) && OwnedInv(owner, s) && Enabled(s, Advance(run)) && Live(s, run)
    ensures ExactInv(Apply(s, Advance(run)))
  {
    AdvanceKeepsCursors(s, run);
    AdvanceKeepsExporters(s, run);
    AdvanceKeepsHarmless(owner, s, run);
    AdvanceKeepsAlone(s, run);
  }

  lemma CreateKeepsCursors(s: State, d: DestId, config: Config, interval: nat)
    requires ExactInv(s) && Enabled(s, Create(d, config, interval))
    ensures ExactCursors(Apply(s, Create(d, config, interval)))
  {
    var t := Apply(s, Create(d, config, interval));
    forall e, stream | e in t.dests ensures CursorCovered(t, e, stream, CursorOf(t, e, stream), true) {
      if e == d {
        assert CursorOf(t, d, stream) == NIL_KEY;
        NilIsCovered(t, d, stream, true);
      } else {
        assert CursorCovered(s, e, stream, CursorOf(s, e, stream), true);
      }
    }
  }

  lemma CreateKeepsExporters(s: State, d: DestId, config: Config, interval: nat)
    requires ExactInv(s) && Exclusive(s) && Enabled(s, Create(d, config, interval))
    ensures ExactExporters(Apply(s, Create(d, config, interval)))
  {
    var t := Apply(s, Create(d, config, interval));
    forall r | Live(t, r) && t.workers[r].destination in t.dests ensures ExporterExact(t, r) {
      assert Live(s, r) && s.workers[r].destination in s.configs;
      assert ExporterExact(s, r);
    }
  }

  lemma NewIsHarmless(s: State, t: State, phase: Phase, d: DestId)
    requires SourcesWellFormed(s) && t.sources == s.sources && phase.Fetched? && d in t.configs
             && CursorOf(t, d, phase.stream) == NIL_KEY
    ensures HarmlessTo(t, phase, d)
  {
    SourceWellFormed(s, t.configs[d].workspace, phase.stream);
  }

  lemma CreateKeepsRest(s: State, d: DestId, config: Config, interval: nat)
    requires ExactInv(s) && Exclusive(s) && Enabled(s, Create(d, config, interval))
    ensures HarmlessBatches(Apply(s, Create(d, config, interval))) && OneCarrier(Apply(s, Create(d, config, interval)))
  {
    var t := Apply(s, Create(d, config, interval));
    forall r, e | Live(t, r) && t.workers[r].phase.Fetched? && e in t.dests
      && SharesEndpoint(t, t.workers[r].destination, e)
      ensures HarmlessTo(t, t.workers[r].phase, e)
    {
      if e == d {
        assert CursorOf(t, d, t.workers[r].phase.stream) == NIL_KEY;
        NewIsHarmless(s, t, t.workers[r].phase, d);
      } else {
        assert Live(s, r) && HarmlessTo(s, s.workers[r].phase, e);
      }
    }
    CarriersStay(s, t, {});
  }

  lemma CreateKeepsExact(s: State, d: DestId, config: Config, interval: nat)
    requires ExactInv(s) && Exclusive(s) && Enabled(s, Create(d, config, interval))
    ensures ExactInv(Apply(s, Create(d, config, interval)))
  {
    CreateKeepsCursors(s, d, config, interval);
    CreateKeepsExporters(s, d, config, interval);
    CreateKeepsRest(s, d, config, interval);
  }

  // ------------------------------------------------------------------ over all behaviours

  predicate ExportStep(step: Step) {
    step.ReadCursor? || step.FetchBatch? || step.Deliver? || step.DeliverInPart? || step.Advance?
  }

  lemma ExportStepKeepsExact(owner: Owners, s: State, step: Step)
    requires ExactInv(s) && Exclusive(s) && OwnedInv(owner, s) && Enabled(s, step) && Punctual(s, step)
             && TakesTurns(s, step)
    requires ExportStep(step)
    ensures ExactInv(Apply(s, step))
  {
    match step
    case Deliver(run) => DeliverKeepsExact(owner, s, run);
    case DeliverInPart(run, part, error) => DeliverInPartKeepsExact(owner, s, run, part, error);
    case FetchBatch(run) => FetchKeepsExact(owner, s, run);
    case ReadCursor(run) => ReadCursorKeepsExact(s, run);
    case Advance(run) => AdvanceKeepsExact(owner, s, run);
  }

  predicate TableStep(step: Step) {
    || step.Write? || step.Purge? || step.Create? || step.Delete?
    || step.Tick? || step.Update? || step.ReleaseStale?
  }

  lemma AnyTableStepKeepsExact(s: State, step: Step)
    requires ExactInv(s) && Exclusive(s) && Enabled(s, step) && TableStep(step)
    ensures ExactInv(Apply(s, step))
  {
    if step.Write? {
      WriteKeepsExact(s, step);
    } else if step.Purge? {
      PurgeKeepsExact(s, step);
    } else if step.Create? {
      CreateKeepsExact(s, step.d, step.config, step.interval);
    } else if step.Delete? {
      DeleteKeepsExact(s, step.d);
    } else {
      TableStepKeepsExact(s, step);
    }
  }

  lemma StepKeepsExact(owner: Owners, s: State, step: Step)
    requires ExactInv(s) && Exclusive(s) && OwnedInv(owner, s) && Enabled(s, step) && Punctual(s, step)
             && TakesTurns(s, step)
    requires Exclusive(Apply(s, step))
    ensures ExactInv(Apply(s, step))
  {
    if ExportStep(step) {
      ExportStepKeepsExact(owner, s, step);
    } else if TableStep(step) {
      AnyTableStepKeepsExact(s, step);
    } else if step.Claim? || step.StartDrain? {
      BeginStepKeepsExact(s, step);
    } else if step.Fail? || step.TimeOut? {
      LeaveStepKeepsExact(s, step);
    } else {
      EndStepKeepsExact(s, step);
    }
  }

  ghost predicate TimelyBehaviour(owner: Owners, states: seq<State>, steps: seq<Step>) {
    && PunctualBehaviour(states, steps)
    && (forall i | 0 <= i < |steps| :: TakesTurns(states[i], steps[i]) && OwnIds(owner, steps[i]))
  }

  lemma {:induction false} BehaviourKeepsExact(owner: Owners, states: seq<State>, steps: seq<Step>, n: nat)
    requires TimelyBehaviour(owner, states, steps)
    requires n < |states|
    ensures ExactInv(states[n]) && OwnedInv(owner, states[n])
  {
    if n > 0 {
      BehaviourKeepsExact(owner, states, steps, n - 1);
      BehaviourKeepsSingle(states, steps, n - 1);
      BehaviourKeepsSingle(states, steps, n);
      SingleIsExclusive(states[n - 1]);
      SingleIsExclusive(states[n]);
      StepKeepsExact(owner, states[n - 1], steps[n - 1]);
      StepKeepsOwned(owner, states[n - 1], steps[n - 1]);
    }
  }

  /**
   * Cursor coverage over every timely behaviour: a source row at or below a destination's
   * cursor is in its sink at exactly its current version, whatever crashed between deliver
   * and advance, whatever was rewritten between fetch and deliver, and whichever other
   * destinations, deleted ones included, deliver to the same sink.
   */
  lemma SinkMatchesBelowTheCursor(owner: Owners, states: seq<State>, steps: seq<Step>, n: nat, d: DestId,
      stream: Stream, row: Row)
    requires TimelyBehaviour(owner, states, steps)
    requires n < |states|
    requires d in states[n].dests && d in states[n].configs
    requires row in SourceOf(states[n], states[n].configs[d].workspace, stream).rows
    requires AtMost(row.key, CursorOf(states[n], d, stream))
    ensures var sink := SinkOf(states[n], states[n].configs[d].endpoint);
            SinkKey(stream, row.key.id) in sink && sink[SinkKey(stream, row.key.id)] == row
  {
    BehaviourKeepsExact(owner, states, steps, n);
    assert CursorCovered(states[n], d, stream, CursorOf(states[n], d, stream), true);
  }
}
