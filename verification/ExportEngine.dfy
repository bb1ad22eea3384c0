/**
 * The store and the export loop as they are written: rows updated in place, one batch at a
 * time. Every method is one of the steps of `DestinationStore`, or the run of them that
 * `ExportLoop` describes, so what is proved there of all interleavings holds of it.
 */
module ExportEngine {
  import opened Basics
  import opened ExportTable
  import opened DestinationStore
  import opened ExportTurns
  import opened ExportLoop

  datatype ClaimError = Conflict | NotFound

  /** Due destinations are claimed in `(next_sync_at, id)` order. */
  predicate DueBefore(dests: map<DestId, Destination>, d: DestId, e: DestId)
    requires d in dests && e in dests
  {
    dests[d].nextSyncAt < dests[e].nextSyncAt || (dests[d].nextSyncAt == dests[e].nextSyncAt && d <= e)
  }

  predicate Due(dest: Destination, now: int) {
    dest.enabled && dest.claimedAt.None? && dest.nextSyncAt <= now
  }

  lemma {:induction false} SomeDueIsFirst(dests: map<DestId, Destination>, due: set<DestId>) returns (first: DestId)
    requires due != {} && due <= dests.Keys
    ensures first in due && forall e | e in due :: DueBefore(dests, first, e)
  {
    var d :| d in due;
    var rest := due - {d};
    if rest == {} {
      assert due == {d};
      first := d;
    } else {
      var r := SomeDueIsFirst(dests, rest);
      first := if DueBefore(dests, d, r) then d else r;
      forall e | e in due ensures DueBefore(dests, first, e) {
        if e != d { assert e in rest; }
      }
    }
  }

  class Store {
    var now: int
    var dests: map<DestId, Destination>
    var runs: map<RunId, Run>
    var cursors: map<(DestId, Stream), Key>
    var sources: map<(Workspace, Stream), Source>
    var sinks: map<Endpoint, Sink>
    var configs: map<DestId, Config>
    /** Not stored: which tasks are in flight and which ids were ever issued. */
    ghost var workers: map<RunId, Worker>
    ghost var issued: map<Token, RunId>

    ghost function Snapshot(): State
      reads this
    {
      State(now, dests, runs, cursors, sources, sinks, workers, configs, issued)
    }

    method ReleaseStaleClaims(before: int)
      modifies this
      ensures Snapshot() == Apply(old(Snapshot()), ReleaseStale(before))
    {
      dests := map d | d in dests ::
        if Older(dests[d].claimedAt, before) then dests[d].(claimedAt := None, claimToken := None) else dests[d];
      runs := map r | r in runs ::
        if runs[r].status.Running? && runs[r].startedAt < before
        then runs[r].(status := Failed, error := Some(STALE_ERROR), finishedAt := Some(now)) else runs[r];
    }

    /** The claim itself, shared by both ways to claim: row update and run insert in one transaction. */
    method TakeClaim(d: DestId, token: Token, run: RunId, trigger: Trigger)
      requires Enabled(Snapshot(), Claim(d, token, run, trigger))
      modifies this
      ensures Snapshot() == Apply(old(Snapshot()), Claim(d, token, run, trigger))
    {
      workers := workers[run := Worker(d, dests[d].interval, token, now, now + STALE_CLAIM_AGE, Claimed)];
      issued := issued[token := run];
      dests := dests[d := dests[d].(claimedAt := Some(now), claimToken := Some(token))];
      runs := runs[run := Run(d, trigger, Running, 0, None, now, None)];
    }

    /** Sweeps, then claims the due destination that has waited longest, if any is due. */
    method ClaimDueDestination(before: int, token: Token, run: RunId) returns (claimed: Option<DestId>)
      requires token !in issued && run !in issued.Values
      modifies this
      ensures var swept := Apply(old(Snapshot()), ReleaseStale(before));
              match claimed
              case None => Snapshot() == swept && forall d | d in swept.dests :: !Due(swept.dests[d], now)
              case Some(d) =>
                && d in swept.dests && Due(swept.dests[d], now)
                && (forall e | e in swept.dests && Due(swept.dests[e], now) :: DueBefore(swept.dests, d, e))
                && Enabled(swept, Claim(d, token, run, Scheduled))
                   && Snapshot() == Apply(swept, Claim(d, token, run, Scheduled))
    {
      ReleaseStaleClaims(before);
      var due := set d | d in dests && Due(dests[d], now);
      if due == {} {
        assert forall d | d in dests :: Due(dests[d], now) ==> d in due;
        return None;
      }
      ghost var first := SomeDueIsFirst(dests, due);
      var d :| d in due && forall e | e in due :: DueBefore(dests, d, e);
      assert forall e | e in dests && Due(dests[e], now) :: e in due;
      TakeClaim(d, token, run, Scheduled);
      return Some(d);
    }

    /** "Sync now": refused while any worker holds the destination. */
    method ClaimDestinationNow(workspace: Workspace, d: DestId, before: int, token: Token, run: RunId)
      returns (claimed: Result<(), ClaimError>)
      requires token !in issued && run !in issued.Values
      requires forall e | e in dests :: e in configs
      modifies this
      ensures var swept := Apply(old(Snapshot()), ReleaseStale(before));
              var known := d in swept.dests && d in swept.configs && swept.configs[d].workspace == workspace;
              if !known then claimed == Err(NotFound) && Snapshot() == swept
              else if swept.dests[d].claimedAt.Some? then claimed == Err(Conflict) && Snapshot() == swept
              else (
                && claimed.Ok? && Enabled(swept, Claim(d, token, run, Manual))
                && Snapshot() == Apply(swept, Claim(d, token, run, Manual)))
    {
      ReleaseStaleClaims(before);
      if d !in dests || configs[d].workspace != workspace {
        return Err(NotFound);
      }
      if dests[d].claimedAt.Some? {
        return Err(Conflict);
      }
      TakeClaim(d, token, run, Manual);
      return Ok(());
    }

    /** Records the outcome under the run's status and the claim token. */
    method FinishRun(run: RunId, destination: DestId, token: Token, interval: nat, outcome: Outcome)
      requires run in workers && workers[run].phase == Ended(outcome)
      requires workers[run].destination == destination && workers[run].token == token
               && workers[run].interval == interval
      modifies this
      ensures Snapshot() == ApplyFinish(old(Snapshot()), run)
    {
      ghost var w := workers[run];
      SettleRun(run, destination, outcome, w);
      FreeDestination(destination, token, interval, outcome, w);
      workers := map r | r in workers && r != run :: workers[r];
    }

    /** The first of its updates, guarded by the run's status. */
    method SettleRun(run: RunId, destination: DestId, outcome: Outcome, ghost w: Worker)
      requires w.destination == destination
      modifies this`runs
      ensures runs == FinishRuns(old(Snapshot()), run, w, outcome)
    {
      if run in runs && runs[run].destination == destination && runs[run].status.Running? {
        runs := runs[run := Settled(runs[run], outcome, now)];
      }
    }

    /** The second, guarded by the claim token. */
    method FreeDestination(d: DestId, token: Token, interval: nat, outcome: Outcome, ghost w: Worker)
      requires w.destination == d && w.token == token && w.interval == interval
      modifies this`dests
      ensures dests == FinishDests(old(Snapshot()), w, outcome)
    {
      if d in dests && dests[d].claimToken == Some(token) {
        var delay := if outcome.Exported? then interval else FAILURE_RETRY_DELAY;
        dests := dests[d := dests[d].(claimedAt := None, claimToken := None, nextSyncAt := now + delay)];
      }
    }

    // ---------------------------------------------------------------- the export loop

    /** What the loop reads and writes of the store. */
    function Current(d: DestId, stream: Stream, total: nat): Values
      requires d in configs
      reads this
    {
      Values(if (d, stream) in cursors then Some(cursors[(d, stream)]) else None,
             if configs[d].endpoint in sinks then Some(sinks[configs[d].endpoint]) else None, total, More)
    }

    function SourceRows(d: DestId, stream: Stream): Table
      requires d in configs
      reads this
    {
      if (configs[d].workspace, stream) in sources then sources[(configs[d].workspace, stream)].rows else []
    }

    /** A worker's loop over a stream stands at its head. */
    ghost predicate InLoop(run: RunId, d: DestId, stream: Stream, total: nat)
      reads this
    {
      && run in workers && workers[run].destination == d && workers[run].phase == LoopHead(stream, total)
      && d in dests && d in configs
    }

    /** Delivers a batch and only then advances over it; either call may fail. */
    method DeliverThenAdvance(d: DestId, stream: Stream, total: nat, batch: Table, answer: Answer)
        returns (after: nat, verdict: Verdict)
      requires d in configs && batch != []
      modifies this`cursors, this`sinks
      ensures var to := Export(stream, old(Current(d, stream, total)), batch, answer);
              && after == to.total && verdict == to.verdict
              && Current(d, stream, after) == to.(verdict := More)
      ensures OnlyMoved(old(cursors), cursors, old(sinks), sinks, d, stream)
    {
      var endpoint := configs[d].endpoint;
      var rows := if endpoint in sinks then sinks[endpoint] else map[];
      if answer.DeliveryFails? {
        sinks := sinks[endpoint := Upsert(rows, stream, Kept(batch, answer.keeps))];
        return total, Stopped(answer.error);
      }
      sinks := sinks[endpoint := Upsert(rows, stream, batch)];
      if answer.AdvanceFails? {
        return total, Stopped(answer.error);
      }
      cursors := cursors[(d, stream) := batch[|batch| - 1].key];
      return total + |batch|, if |batch| < BATCH_SIZE then Exhausted else More;
    }

    /** The body of the export loop: read the cursor, fetch, deliver, and only then advance; any call may fail. */
    method ExportBatch(d: DestId, stream: Stream, total: nat, answer: Answer) returns (after: nat, verdict: Verdict)
      requires d in configs
      modifies this`cursors, this`sinks
      ensures var to := Turn(SourceRows(d, stream), stream, old(Current(d, stream, total)), answer);
              && after == to.total && verdict == to.verdict
              && Current(d, stream, after) == to.(verdict := More)
      ensures OnlyMoved(old(cursors), cursors, old(sinks), sinks, d, stream)
    {
      if answer.ReadFails? {
        return total, Stopped(answer.error);
      }
      var cursor := if (d, stream) in cursors then cursors[(d, stream)] else NIL_KEY;
      if RUN_ROW_CAP <= total {
        return total, Capped;
      }
      if answer.FetchFails? {
        return total, Stopped(answer.error);
      }
      var batch := Fetch(SourceRows(d, stream), cursor, BatchLimit(total));
      if batch == [] {
        return total, Exhausted;
      }
      after, verdict := DeliverThenAdvance(d, stream, total, batch, answer);
    }

    /** Only one cursor row and one sink are written. */
    ghost predicate OnlyMoved(before: map<(DestId, Stream), Key>, after: map<(DestId, Stream), Key>,
                              sunk: map<Endpoint, Sink>, now: map<Endpoint, Sink>, d: DestId, stream: Stream)
      requires d in configs
      reads this`configs
    {
      && after - {(d, stream)} == before - {(d, stream)} && before.Keys <= after.Keys
      && now - {configs[d].endpoint} == sunk - {configs[d].endpoint} && sunk.Keys <= now.Keys
    }

    /** The loop over one stream, from answer `first` on. */
    method ExportStream(d: DestId, stream: Stream, start: nat, first: nat, answers: Answers)
      returns (total: nat, next: nat, verdict: Verdict)
      requires d in configs
      modifies this`cursors, this`sinks
      ensures var (to, j) := Turns(SourceRows(d, stream), stream, old(Current(d, stream, start)), answers, first);
              && total == to.total && next == j && verdict == to.verdict && verdict != More
              && Current(d, stream, total) == to.(verdict := More)
              && OnlyMoved(old(cursors), cursors, old(sinks), sinks, d, stream)
    {
      total, next, verdict := start, first, More;
      while verdict == More
        invariant OnlyMoved(old(cursors), cursors, old(sinks), sinks, d, stream)
        invariant Turns(SourceRows(d, stream), stream, Current(d, stream, total).(verdict := verdict), answers, next)
               == Turns(SourceRows(d, stream), stream, old(Current(d, stream, start)), answers, first)
        decreases Budget(Current(d, stream, total).(verdict := verdict))
      {
        TurnsUnroll(SourceRows(d, stream), stream, Current(d, stream, total), answers, next);
        TurnSpends(SourceRows(d, stream), stream, Current(d, stream, total), answers(next));
        total, verdict := ExportBatch(d, stream, total, answers(next));
        next := next + 1;
      }
      TurnsEnd(SourceRows(d, stream), stream, Current(d, stream, total).(verdict := verdict), answers, next);
    }

    /** The store after a stream is the loop's values written back. */
    lemma StreamIsPut(before: State, run: RunId, stream: Stream, to: Values)
      requires InStream(before, run, stream)
      requires Grown(ValuesOf(before, run, stream, to.total), to)
      requires Snapshot() == before.(cursors := cursors, sinks := sinks)
      requires Current(before.workers[run].destination, stream, to.total) == to.(verdict := More)
      requires OnlyMoved(before.cursors, cursors, before.sinks, sinks, before.workers[run].destination, stream)
      ensures Snapshot().(workers := workers[run := workers[run].(phase := PhaseAfter(to.verdict, stream, to.total))])
              == Put(before, run, stream, to)
    {
      var d := before.workers[run].destination;
      MapIsPut(before.cursors, cursors, (d, stream));
      MapIsPut(before.sinks, sinks, configs[d].endpoint);
    }

    /** The loop over one stream as the worker does it, and where it leaves the worker. */
    method WorkStream(run: RunId, d: DestId, stream: Stream, start: nat, first: nat, answers: Answers)
      returns (total: nat, next: nat, verdict: Verdict)
      requires InLoop(run, d, stream, start)
      modifies this`cursors, this`sinks, this`workers
      ensures (Snapshot(), next) == AfterStream(old(Snapshot()), run, stream, answers, first)
      ensures run in workers && workers[run].destination == d
              && workers[run].phase == PhaseAfter(verdict, stream, total)
      ensures verdict != More
    {
      ghost var before := Snapshot();
      total, next, verdict := ExportStream(d, stream, start, first, answers);
      TurnsGrow(SourceRows(d, stream), stream, ValuesOf(before, run, stream, start), answers, first);
      StreamIsPut(before, run, stream, Current(d, stream, total).(verdict := verdict));
      workers := workers[run := workers[run].(phase := PhaseAfter(verdict, stream, total))];
    }

    /** One whole run of a claimed job: interactions first, then reports; the first failed call ends it. */
    method ExportDestination(run: RunId, d: DestId, unsealed: Result<(), string>, answers: Answers)
      returns (result: Result<nat, string>)
      requires InLoop(run, d, Interactions, 0)
      modifies this`cursors, this`sinks, this`workers
      ensures unsealed.Err? ==>
              result == Err(unsealed.error) && Takes(old(Snapshot()), Fail(run, unsealed.error), Snapshot())
      ensures unsealed.Ok? ==> Snapshot() == AfterRun(old(Snapshot()), run, answers)
      ensures run in workers
      ensures workers[run].phase == Ended(if result.Ok? then Exported(result.value) else Broken(result.error))
    {
      if unsealed.Err? {
        workers := workers[run := workers[run].(phase := Ended(Broken(unsealed.error)))];
        return Err(unsealed.error);
      }
      var total, next, verdict := WorkStream(run, d, Interactions, 0, 0, answers);
      if verdict == Exhausted {
        total, next, verdict := WorkStream(run, d, FeedbackReports, total, next, answers);
      }
      return if verdict.Stopped? then Err(verdict.error) else Ok(total);
    }
  }

  /** A map that differs from another at one key at most is that map with the key written. */
  lemma MapIsPut<K, V>(before: map<K, V>, after: map<K, V>, k: K)
    requires after - {k} == before - {k} && before.Keys <= after.Keys
    ensures after == if k in after then before[k := after[k]] else before
  {
    forall x ensures x in after <==> x in before || (x == k && k in after) {
      if x != k {
        assert x in after <==> x in after - {k};
        assert x in before <==> x in before - {k};
      }
    }
    forall x | x in before && x != k ensures x in after && after[x] == before[x] {
      assert x in before - {k} && (after - {k})[x] == (before - {k})[x];
    }
  }
}
