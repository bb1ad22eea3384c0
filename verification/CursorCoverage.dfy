/**
 * What an export cursor promises. A cursor only ever rests on a key when every source row
 * at or below it has reached the customer's sink.
 */
module CursorCoverage {
  import opened ExportTable
  import opened DestinationStore

  /** Every row at or below `cursor` is in the sink, at its current version when `exact`. */
  ghost predicate Covered(rows: Table, sink: Sink, stream: Stream, cursor: Key, exact: bool) {
    forall row | row in rows && AtMost(row.key, cursor) ::
      SinkKey(stream, row.key.id) in sink && (exact ==> sink[SinkKey(stream, row.key.id)] == row)
  }

  ghost predicate Carries(batch: Table, id: nat) {
    exists i :: 0 <= i < |batch| && batch[i].key.id == id
  }

  function LastKey(batch: Table): Key
    requires batch != []
  {
    batch[|batch| - 1].key
  }

  // ------------------------------------------------------------------ sources and sinks

  /** Commits and purges: nothing new appears at or below a key that was already committed. */
  ghost predicate NothingNewBelow(old_: Source, new_: Source) {
    && AtMost(old_.high, new_.high)
    && forall row | row in new_.rows && AtMost(row.key, old_.high) :: row in old_.rows
  }

  ghost predicate SourcesWellFormed(s: State) {
    forall k | k in s.sources :: WellFormed(s.sources[k].rows, s.sources[k].high) && AtMost(NIL_KEY, s.sources[k].high)
  }

  lemma SourceWellFormed(s: State, workspace: Workspace, stream: Stream)
    requires SourcesWellFormed(s)
    ensures WellFormed(SourceOf(s, workspace, stream).rows, SourceOf(s, workspace, stream).high)
    ensures AtMost(NIL_KEY, SourceOf(s, workspace, stream).high)
  {}

  lemma WriteAddsOnTop(src: Source, row: Row)
    requires WellFormed(src.rows, src.high) && AtMost(NIL_KEY, src.high)
    requires Less(src.high, row.key)
    ensures var next := Source(Without(src.rows, row.key.id) + [row], row.key);
            NothingNewBelow(src, next) && WellFormed(next.rows, next.high)
  {
    WithoutKeeps(src.rows, row.key.id);
    WithoutStaysOrdered(src.rows, row.key.id);
    AppendStaysWellFormed(Without(src.rows, row.key.id), row, src.high);
  }

  lemma PurgeAddsNothing(src: Source, id: nat)
    requires WellFormed(src.rows, src.high)
    ensures var next := src.(rows := Without(src.rows, id));
            NothingNewBelow(src, next) && WellFormed(next.rows, next.high)
  {
    WithoutKeeps(src.rows, id);
    WithoutStaysOrdered(src.rows, id);
  }

  lemma {:induction false} UpsertKeys(sink: Sink, stream: Stream, batch: Table)
    ensures forall k :: k in Upsert(sink, stream, batch) <==> k in sink || (k.stream == stream && Carries(batch, k.id))
    decreases |batch|
  {
    if batch != [] {
      var front := batch[..|batch| - 1];
      UpsertKeys(sink, stream, front);
      forall id ensures Carries(batch, id) <==> Carries(front, id) || batch[|batch| - 1].key.id == id {
        if Carries(front, id) {
          var i :| 0 <= i < |front| && front[i].key.id == id;
          assert batch[i].key.id == id;
        }
        if Carries(batch, id) {
          var i :| 0 <= i < |batch| && batch[i].key.id == id;
          assert i < |front| ==> front[i].key.id == id;
        }
      }
    }
  }

  lemma {:induction false} UpsertValues(sink: Sink, stream: Stream, batch: Table)
    ensures forall k | k in Upsert(sink, stream, batch) ::
              if k.stream == stream && Carries(batch, k.id)
              then Upsert(sink, stream, batch)[k] in batch && Upsert(sink, stream, batch)[k].key.id == k.id
              else k in sink && Upsert(sink, stream, batch)[k] == sink[k]
    decreases |batch|
  {
    if batch != [] {
      var front := batch[..|batch| - 1];
      UpsertValues(sink, stream, front);
      UpsertKeys(sink, stream, front);
      UpsertKeys(sink, stream, batch);
      forall k | k in Upsert(sink, stream, batch) && k != SinkKey(stream, batch[|batch| - 1].key.id)
        ensures k.stream == stream && Carries(batch, k.id) ==> Carries(front, k.id)
      {
        if k.stream == stream && Carries(batch, k.id) {
          var i :| 0 <= i < |batch| && batch[i].key.id == k.id;
          assert front[i].key.id == k.id;
        }
      }
      forall id | Carries(front, id) ensures Carries(batch, id) {
        var i :| 0 <= i < |front| && front[i].key.id == id;
        assert batch[i].key.id == id;
      }
      assert batch[|batch| - 1] in batch;
      assert Carries(batch, batch[|batch| - 1].key.id);
    }
  }

  /** Sources only gain rows on top and no sink loses a key. */
  ghost predicate Onward(s: State, t: State) {
    && t.configs == s.configs
    && (forall workspace, stream :: NothingNewBelow(SourceOf(s, workspace, stream), SourceOf(t, workspace, stream)))
    && (forall endpoint :: SinkOf(s, endpoint).Keys <= SinkOf(t, endpoint).Keys)
  }

  // ------------------------------------------------------------------ the weak promise

  ghost predicate CursorCovered(s: State, d: DestId, stream: Stream, cursor: Key, exact: bool)
    requires d in s.configs
  {
    var config := s.configs[d];
    var src := SourceOf(s, config.workspace, stream);
    AtMost(cursor, src.high) && Covered(src.rows, SinkOf(s, config.endpoint), stream, cursor, exact)
  }

  /** A batch in flight carries every row between the cursor it was read from and its end. */
  ghost predicate BatchReaches(rows: Table, cursor: Key, batch: Table)
    requires batch != []
  {
    forall row | row in rows && Less(cursor, row.key) && AtMost(row.key, LastKey(batch)) :: Carries(batch, row.key.id)
  }

  ghost predicate WorkerCovered(s: State, run: RunId)
    requires run in s.workers
  {
    var w := s.workers[run];
    w.destination in s.configs &&
    match w.phase
    case CursorRead(stream, _, cursor) => CursorCovered(s, w.destination, stream, cursor, false)
    case Fetched(stream, _, cursor, batch) =>
      && CursorCovered(s, w.destination, stream, cursor, false)
      && batch != []
      && AtMost(LastKey(batch), JobSource(s, w, stream).high)
      && BatchReaches(JobSource(s, w, stream).rows, cursor, batch)
    case Delivered(stream, _, _, batch) =>
      batch != [] && CursorCovered(s, w.destination, stream, LastKey(batch), false)
    case _ => true
  }

  ghost predicate CursorsInv(s: State) {
    && (forall k | k in s.cursors :: k.0 in s.dests)
    && (forall d | d in s.dests :: d in s.configs)
    && (forall d, stream | d in s.dests :: CursorCovered(s, d, stream, CursorOf(s, d, stream), false))
  }

  ghost predicate WorkersInv(s: State) {
    forall run | run in s.workers :: WorkerCovered(s, run)
  }

  ghost predicate WeakInv(s: State) {
    SourcesWellFormed(s) && CursorsInv(s) && WorkersInv(s)
  }

  lemma CursorCoveredOnward(s: State, t: State, d: DestId, stream: Stream, cursor: Key)
    requires Onward(s, t) && d in s.configs
    requires CursorCovered(s, d, stream, cursor, false)
    ensures CursorCovered(t, d, stream, cursor, false)
  {
    var config := s.configs[d];
    var a := SourceOf(s, config.workspace, stream);
    var b := SourceOf(t, config.workspace, stream);
    assert NothingNewBelow(a, b);
    assert SinkOf(s, config.endpoint).Keys <= SinkOf(t, config.endpoint).Keys;
    forall row | row in b.rows && AtMost(row.key, cursor)
      ensures SinkKey(stream, row.key.id) in SinkOf(t, config.endpoint)
    {
      assert row in a.rows;
    }
  }

  lemma WorkerCoveredOnward(s: State, t: State, run: RunId)
    requires Onward(s, t)
    requires run in s.workers && run in t.workers
    requires t.workers[run].destination == s.workers[run].destination && t.workers[run].phase == s.workers[run].phase
    requires WorkerCovered(s, run)
    ensures WorkerCovered(t, run)
  {
    var w := s.workers[run];
    match w.phase
    case CursorRead(stream, _, cursor) => CursorCoveredOnward(s, t, w.destination, stream, cursor);
    case Fetched(stream, _, cursor, batch) =>
      CursorCoveredOnward(s, t, w.destination, stream, cursor);
      assert NothingNewBelow(JobSource(s, w, stream), JobSource(t, w, stream));
    case Delivered(stream, _, _, batch) => CursorCoveredOnward(s, t, w.destination, stream, LastKey(batch));
    case _ =>
  }

  /** Cursors that did not move stay covered. */
  lemma CursorsOnward(s: State, t: State)
    requires Onward(s, t) && CursorsInv(s)
    requires t.dests.Keys == s.dests.Keys && t.cursors == s.cursors
    ensures CursorsInv(t)
  {
    forall d, stream | d in t.dests ensures CursorCovered(t, d, stream, CursorOf(t, d, stream), false) {
      CursorCoveredOnward(s, t, d, stream, CursorOf(s, d, stream));
    }
  }

  /** Workers that did not move stay covered. */
  lemma WorkersOnward(s: State, t: State, moved: set<RunId>)
    requires Onward(s, t) && WorkersInv(s)
    requires forall run | run in t.workers && run !in moved ::
               run in s.workers && t.workers[run].destination == s.workers[run].destination
                   && t.workers[run].phase == s.workers[run].phase
    requires forall run | run in t.workers && run in moved :: WorkerCovered(t, run)
    ensures WorkersInv(t)
  {
    forall run | run in t.workers ensures WorkerCovered(t, run) {
      if run !in moved { WorkerCoveredOnward(s, t, run); }
    }
  }

  lemma SameSourcesOnward(s: State, t: State)
    requires t.configs == s.configs && t.sources == s.sources
    requires forall endpoint :: SinkOf(s, endpoint).Keys <= SinkOf(t, endpoint).Keys
    ensures Onward(s, t)
  {}

  lemma SourceStepIsOnward(s: State, step: Step)
    requires SourcesWellFormed(s) && Enabled(s, step)
    requires step.Write? || step.Purge?
    ensures Onward(s, Apply(s, step)) && SourcesWellFormed(Apply(s, step))
  {
    SourceWellFormed(s, step.workspace, step.stream);
    if step.Write? {
      WriteAddsOnTop(SourceOf(s, step.workspace, step.stream), step.row);
    } else {
      PurgeAddsNothing(SourceOf(s, step.workspace, step.stream), step.id);
    }
  }

  lemma SourceStepKeepsWeak(s: State, step: Step)
    requires WeakInv(s) && Enabled(s, step)
    requires step.Write? || step.Purge?
    ensures WeakInv(Apply(s, step))
  {
    SourceStepIsOnward(s, step);
    CursorsOnward(s, Apply(s, step));
    WorkersOnward(s, Apply(s, step), {});
  }

  lemma SendGrowsSinks(s: State, w: Worker, stream: Stream, part: Table)
    requires w.destination in s.configs
    ensures var t := s.(sinks := SendTo(s, w, stream, part));
            && Onward(s, t)
            && (forall id | Carries(part, id) :: SinkKey(stream, id) in SinkOf(t, s.configs[w.destination].endpoint))
  {
    UpsertKeys(SinkOf(s, s.configs[w.destination].endpoint), stream, part);
  }

  lemma DeliverKeepsWeak(s: State, run: RunId)
    requires WeakInv(s) && Enabled(s, Deliver(run))
    ensures WeakInv(Apply(s, Deliver(run)))
  {
    var t := Apply(s, Deliver(run));
    var w := s.workers[run];
    var Fetched(stream, total, cursor, batch) := w.phase;
    assert WorkerCovered(s, run);
    SendGrowsSinks(s, w, stream, batch);
    assert Onward(s, t);
    CursorsOnward(s, t);
    CursorCoveredOnward(s, t, w.destination, stream, cursor);
    SentIsCovered(JobSource(t, w, stream).rows, SinkOf(t, t.configs[w.destination].endpoint), stream, cursor, batch);
    WorkersOnward(s, t, {run});
  }

  /** A sink that holds what lies at or below the cursor and what the batch carries covers the batch. */
  lemma SentIsCovered(rows: Table, sink: Sink, stream: Stream, cursor: Key, batch: Table)
    requires batch != [] && BatchReaches(rows, cursor, batch)
    requires Covered(rows, sink, stream, cursor, false)
    requires forall id | Carries(batch, id) :: SinkKey(stream, id) in sink
    ensures Covered(rows, sink, stream, LastKey(batch), false)
  {
    forall row | row in rows && AtMost(row.key, LastKey(batch)) ensures SinkKey(stream, row.key.id) in sink {
      if Less(cursor, row.key) { assert Carries(batch, row.key.id); }
    }
  }

  lemma DeliverInPartKeepsWeak(s: State, run: RunId, part: Table, error: string)
    requires WeakInv(s) && Enabled(s, DeliverInPart(run, part, error))
    ensures WeakInv(Apply(s, DeliverInPart(run, part, error)))
  {
    var t := Apply(s, DeliverInPart(run, part, error));
    var w := s.workers[run];
    assert WorkerCovered(s, run);
    SendGrowsSinks(s, w, w.phase.stream, part);
    assert Onward(s, t);
    CursorsOnward(s, t);
    WorkersOnward(s, t, {run});
  }

  lemma FetchReaches(src: Source, cursor: Key, limit: nat)
    requires WellFormed(src.rows, src.high)
    requires Fetch(src.rows, cursor, limit) != []
    ensures var batch := Fetch(src.rows, cursor, limit);
            && AtMost(LastKey(batch), src.high)
            && BatchReaches(src.rows, cursor, batch)
            && (forall row | row in src.rows && Less(cursor, row.key) && AtMost(row.key, LastKey(batch)) ::
               row in batch)
            && (forall row | row in batch ::
               row in src.rows && Less(cursor, row.key) && AtMost(row.key, LastKey(batch)))
  {
    FetchEndsInside(src, cursor, limit);
    var batch := Fetch(src.rows, cursor, limit);
    forall row | row in src.rows && Less(cursor, row.key) && AtMost(row.key, LastKey(batch))
      ensures row in batch && Carries(batch, row.key.id)
    {
      FetchSkipsNothing(src.rows, cursor, limit, row);
      MemberIsCarried(batch, row);
    }
  }

  lemma FetchEndsInside(src: Source, cursor: Key, limit: nat)
    requires WellFormed(src.rows, src.high)
    requires Fetch(src.rows, cursor, limit) != []
    ensures var batch := Fetch(src.rows, cursor, limit);
            && AtMost(LastKey(batch), src.high)
            && (forall row | row in batch ::
               row in src.rows && Less(cursor, row.key) && AtMost(row.key, LastKey(batch)))
  {
    var batch := Fetch(src.rows, cursor, limit);
    FetchIsNextRun(src.rows, cursor, limit);
    assert batch[|batch| - 1] in batch;
  }

  lemma MemberIsCarried(batch: Table, row: Row)
    requires row in batch
    ensures Carries(batch, row.key.id)
  {
    var i :| 0 <= i < |batch| && batch[i] == row;
  }

  lemma FetchedIsCovered(s: State, run: RunId)
    requires WeakInv(s) && Enabled(s, FetchBatch(run))
    ensures WorkerCovered(Apply(s, FetchBatch(run)), run)
  {
    var t := Apply(s, FetchBatch(run));
    var w := s.workers[run];
    assert WorkerCovered(s, run);
    if t.workers[run].phase.Fetched? {
      SourceWellFormed(s, s.configs[w.destination].workspace, w.phase.stream);
      FetchReaches(JobSource(s, w, w.phase.stream), w.phase.cursor, BatchLimit(w.phase.total));
    }
  }

  lemma FetchKeepsWeak(s: State, run: RunId)
    requires WeakInv(s) && Enabled(s, FetchBatch(run))
    ensures WeakInv(Apply(s, FetchBatch(run)))
  {
    var t := Apply(s, FetchBatch(run));
    SameSourcesOnward(s, t);
    CursorsOnward(s, t);
    FetchedIsCovered(s, run);
    WorkersOnward(s, t, {run});
  }

  lemma ReadCursorKeepsWeak(s: State, run: RunId)
    requires WeakInv(s) && Enabled(s, ReadCursor(run))
    ensures WeakInv(Apply(s, ReadCursor(run)))
  {
    var t := Apply(s, ReadCursor(run));
    var w := s.workers[run];
    assert WorkerCovered(s, run);
    SameSourcesOnward(s, t);
    CursorsOnward(s, t);
    if w.destination !in s.dests {
      NilIsCovered(s, w.destination, w.phase.stream, false);
    }
    WorkersOnward(s, t, {run});
  }

  /** Nothing lies at or below the nil cursor. */
  lemma NilIsCovered(s: State, d: DestId, stream: Stream, exact: bool)
    requires SourcesWellFormed(s) && d in s.configs
    ensures CursorCovered(s, d, stream, NIL_KEY, exact)
  {
    SourceWellFormed(s, s.configs[d].workspace, stream);
  }

  lemma AdvanceKeepsWeak(s: State, run: RunId)
    requires WeakInv(s) && Enabled(s, Advance(run))
    ensures WeakInv(Apply(s, Advance(run)))
  {
    var t := Apply(s, Advance(run));
    var w := s.workers[run];
    assert WorkerCovered(s, run);
    SameSourcesOnward(s, t);
    forall d, stream | d in t.dests ensures CursorCovered(t, d, stream, CursorOf(t, d, stream), false) {
      assert CursorCovered(s, d, stream, CursorOf(s, d, stream), false);
    }
    WorkersOnward(s, t, {run});
  }

  lemma CreateKeepsWeak(s: State, d: DestId, config: Config, interval: nat)
    requires WeakInv(s) && Enabled(s, Create(d, config, interval))
    ensures WeakInv(Apply(s, Create(d, config, interval)))
  {
    var t := Apply(s, Create(d, config, interval));
    forall e, stream | e in t.dests ensures CursorCovered(t, e, stream, CursorOf(t, e, stream), false) {
      if e == d {
        assert CursorOf(t, d, stream) == NIL_KEY;
        NilIsCovered(t, d, stream, false);
      } else {
        assert CursorCovered(s, e, stream, CursorOf(s, e, stream), false);
      }
    }
    forall run | run in t.workers ensures WorkerCovered(t, run) {
      assert WorkerCovered(s, run);
    }
  }

  lemma DeleteKeepsWeak(s: State, d: DestId)
    requires WeakInv(s)
    ensures WeakInv(ApplyDelete(s, d))
  {
    var t := ApplyDelete(s, d);
    forall e, stream | e in t.dests ensures CursorCovered(t, e, stream, CursorOf(t, e, stream), false) {
      assert CursorCovered(s, e, stream, CursorOf(s, e, stream), false);
    }
    forall run | run in t.workers ensures WorkerCovered(t, run) {
      assert WorkerCovered(s, run);
    }
  }

  /** Claims, the clock, and steps that only end or drop workers. */
  lemma WorkerStepKeepsWeak(s: State, step: Step)
    requires WeakInv(s) && Enabled(s, step)
    requires step.Claim? || step.StartDrain? || step.Fail? || step.TimeOut? || step.Finish? || step.Crash?
    ensures WeakInv(Apply(s, step))
  {
    if step.Fail? || step.TimeOut? {
      EndingKeepsWeak(s, step);
    } else if step.Finish? || step.Crash? {
      LeavingKeepsWeak(s, step);
    } else {
      var t := Apply(s, step);
      SameSourcesOnward(s, t);
      CursorsOnward(s, t);
      assert forall run | run in s.workers :: WorkerCovered(s, run);
      WorkersOnward(s, t, {step.run});
    }
  }

  lemma EndingKeepsWeak(s: State, step: Step)
    requires WeakInv(s) && Enabled(s, step)
    requires step.Fail? || step.TimeOut?
    ensures WeakInv(Apply(s, step))
  {
    var t := Apply(s, step);
    SameSourcesOnward(s, t);
    CursorsOnward(s, t);
    assert WorkerCovered(s, step.run);
    WorkersOnward(s, t, {step.run});
  }

  lemma LeavingKeepsWeak(s: State, step: Step)
    requires WeakInv(s) && Enabled(s, step)
    requires step.Finish? || step.Crash?
    ensures WeakInv(Apply(s, step))
  {
    var t := Apply(s, step);
    SameSourcesOnward(s, t);
    CursorsOnward(s, t);
    WorkersOnward(s, t, {step.run});
  }

  lemma QuietStepKeepsWeak(s: State, step: Step)
    requires WeakInv(s) && Enabled(s, step)
    requires step.Tick? || step.Update? || step.ReleaseStale?
    ensures WeakInv(Apply(s, step))
  {
    var t := Apply(s, step);
    SameSourcesOnward(s, t);
    CursorsOnward(s, t);
    WorkersOnward(s, t, {});
  }

  lemma StepKeepsWeak(s: State, step: Step)
    requires WeakInv(s) && Enabled(s, step)
    ensures WeakInv(Apply(s, step))
  {
    match step
    case Write(_, _, _) => SourceStepKeepsWeak(s, step);
    case Purge(_, _, _) => SourceStepKeepsWeak(s, step);
    case Deliver(run) => DeliverKeepsWeak(s, run);
    case DeliverInPart(run, part, error) => DeliverInPartKeepsWeak(s, run, part, error);
    case FetchBatch(run) => FetchKeepsWeak(s, run);
    case ReadCursor(run) => ReadCursorKeepsWeak(s, run);
    case Advance(run) => AdvanceKeepsWeak(s, run);
    case Create(d, config, interval) => CreateKeepsWeak(s, d, config, interval);
    case Delete(d) => DeleteKeepsWeak(s, d);
    case _ =>
      if step.Tick? || step.Update? || step.ReleaseStale? {
        QuietStepKeepsWeak(s, step);
      } else {
        WorkerStepKeepsWeak(s, step);
      }
  }

  lemma {:induction false} BehaviourKeepsWeak(states: seq<State>, steps: seq<Step>, n: nat)
    requires Behaviour(states, steps)
    requires n < |states|
    ensures WeakInv(states[n])
  {
    if n > 0 {
      BehaviourKeepsWeak(states, steps, n - 1);
      StepKeepsWeak(states[n - 1], steps[n - 1]);
    }
  }

  /**
   * At-least-once delivery over every behaviour, zombie workers and blindly overwritten
   * cursors included: a source row at or below a destination's cursor is in its sink.
   */
  lemma NothingBelowTheCursorIsMissing(states: seq<State>, steps: seq<Step>, n: nat, d: DestId, stream: Stream,
      row: Row)
    requires Behaviour(states, steps)
    requires n < |states|
    requires d in states[n].dests && d in states[n].configs
    requires row in SourceOf(states[n], states[n].configs[d].workspace, stream).rows
    requires AtMost(row.key, CursorOf(states[n], d, stream))
    ensures SinkKey(stream, row.key.id) in SinkOf(states[n], states[n].configs[d].endpoint)
  {
    BehaviourKeepsWeak(states, steps, n);
    assert CursorCovered(states[n], d, stream, CursorOf(states[n], d, stream), false);
  }
}
