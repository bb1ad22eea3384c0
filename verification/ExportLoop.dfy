/**
 * The export loop as a function of the state: which steps of `DestinationStore` one run
 * takes when nothing else touches its rows, and what it has exported at the end.
 */
module ExportLoop {
  import opened Basics
  import opened ExportTable
  import opened DestinationStore
  import opened ExportProgress
  import opened ExportTurns
  import CursorCoverage

  // ------------------------------------------------------------------ chains of steps

  ghost predicate Takes(s: State, step: DestinationStore.Step, t: State) {
    Enabled(s, step) && t == Apply(s, step)
  }

  type Steps = seq<DestinationStore.Step>

  /** The states that a list of steps runs through. */
  ghost predicate Path(states: seq<State>, steps: Steps) {
    && |states| == |steps| + 1
    && forall i | 0 <= i < |steps| :: Takes(states[i], steps[i], states[i + 1])
  }

  lemma PathsTogether(a: seq<State>, x: Steps, b: seq<State>, y: Steps)
    requires Path(a, x) && Path(b, y) && a[|x|] == b[0]
    ensures Path(a + b[1..], x + y)
    ensures (a + b[1..])[0] == a[0] && (a + b[1..])[|x + y|] == b[|y|]
  {
    var c, z := a + b[1..], x + y;
    forall i | 0 <= i < |z| ensures Takes(c[i], z[i], c[i + 1]) {
      if i < |x| {
        assert Takes(a[i], x[i], a[i + 1]);
      } else {
        assert Takes(b[i - |x|], y[i - |x|], b[i - |x| + 1]);
      }
    }
  }

  /** A path carries a behaviour on, so what is proved of all behaviours holds wherever it ends. */
  lemma PathExtends(states: seq<State>, done: Steps, path: seq<State>, steps: Steps)
    requires Behaviour(states, done) && Path(path, steps) && states[|done|] == path[0]
    ensures Behaviour(states + path[1..], done + steps)
    ensures (states + path[1..])[|done + steps|] == path[|steps|]
  {
    assert forall i | 0 <= i < |done| :: Takes(states[i], done[i], states[i + 1]);
    PathsTogether(states, done, path, steps);
    var all, taken := states + path[1..], done + steps;
    forall i | 0 <= i < |taken| ensures Enabled(all[i], taken[i]) && all[i + 1] == Apply(all[i], taken[i]) {
      assert Takes(all[i], taken[i], all[i + 1]);
    }
  }

  // ------------------------------------------------------------------ a worker's values

  predicate InStream(s: State, run: RunId, stream: Stream) {
    && run in s.workers && s.workers[run].phase.LoopHead? && s.workers[run].phase.stream == stream
    && s.workers[run].destination in s.dests && s.workers[run].destination in s.configs
  }

  function CursorRow(s: State, d: DestId, stream: Stream): Option<Key> {
    if (d, stream) in s.cursors then Some(s.cursors[(d, stream)]) else None
  }

  function SinkRow(s: State, endpoint: Endpoint): Option<Sink> {
    if endpoint in s.sinks then Some(s.sinks[endpoint]) else None
  }

  /** What the loop reads and writes of the store. */
  function ValuesOf(s: State, run: RunId, stream: Stream, total: nat): Values
    requires run in s.workers && s.workers[run].destination in s.configs
  {
    var d := s.workers[run].destination;
    Values(CursorRow(s, d, stream), SinkRow(s, s.configs[d].endpoint), total, More)
  }

  function RowsOf(s: State, run: RunId, stream: Stream): Table
    requires run in s.workers
  {
    JobSource(s, s.workers[run], stream).rows
  }

  function PhaseAfter(verdict: Verdict, stream: Stream, total: nat): Phase {
    match verdict
    case More => LoopHead(stream, total)
    case Exhausted => NextStream(stream, total)
    case Capped => Ended(Exported(total))
    case Stopped(error) => Ended(Broken(error))
  }

  /** The store with the loop's values written back, and the worker where they leave it. */
  function Put(s: State, run: RunId, stream: Stream, v: Values): State
    requires run in s.workers && s.workers[run].destination in s.configs
  {
    var w := s.workers[run];
    var endpoint := s.configs[w.destination].endpoint;
    s.(cursors := if v.cursor.Some? then s.cursors[(w.destination, stream) := v.cursor.value] else s.cursors,
       sinks := if v.sink.Some? then s.sinks[endpoint := v.sink.value] else s.sinks,
       workers := s.workers[run := w.(phase := PhaseAfter(v.verdict, stream, v.total))])
  }

  /** Rows once written stay written. */
  predicate Grown(v: Values, to: Values) {
    (v.cursor.Some? ==> to.cursor.Some?) && (v.sink.Some? ==> to.sink.Some?)
  }

  lemma PutOver(s: State, run: RunId, stream: Stream, v: Values, to: Values)
    requires run in s.workers && s.workers[run].destination in s.configs && Grown(v, to)
    ensures Put(Put(s, run, stream, v), run, stream, to) == Put(s, run, stream, to)
  {}

  lemma ValuesOfPut(s: State, run: RunId, stream: Stream, v: Values)
    requires InStream(s, run, stream) && v.verdict == More && Grown(ValuesOf(s, run, stream, v.total), v)
    ensures InStream(Put(s, run, stream, v), run, stream)
    ensures Put(s, run, stream, v).workers[run].phase.total == v.total
    ensures ValuesOf(Put(s, run, stream, v), run, stream, v.total) == v
    ensures forall other :: RowsOf(Put(s, run, stream, v), run, other) == RowsOf(s, run, other)
  {}

  lemma PutOwnValues(s: State, run: RunId, stream: Stream)
    requires InStream(s, run, stream)
    ensures Put(s, run, stream, ValuesOf(s, run, stream, s.workers[run].phase.total)) == s
  {
    var d := s.workers[run].destination;
    var endpoint := s.configs[d].endpoint;
    assert (d, stream) in s.cursors ==> s.cursors[(d, stream) := s.cursors[(d, stream)]] == s.cursors;
    assert endpoint in s.sinks ==> s.sinks[endpoint := s.sinks[endpoint]] == s.sinks;
    assert s.workers[run := s.workers[run]] == s.workers;
  }

  lemma TurnGrows(rows: Table, stream: Stream, v: Values, answer: Answer)
    ensures Grown(v, Turn(rows, stream, v, answer))
  {}

  lemma {:induction false} TurnsGrow(rows: Table, stream: Stream, v: Values, answers: Answers, i: nat)
    ensures Grown(v, Turns(rows, stream, v, answers, i).0)
    ensures Turns(rows, stream, v, answers, i).0.verdict != More
    decreases Budget(v)
  {
    TurnsSpend(rows, stream);
    if v.verdict == More {
      var to := Turn(rows, stream, v, answers(i));
      TurnGrows(rows, stream, v, answers(i));
      assert to == TurnOf(rows, stream)(v, answers(i));
      TurnsGrow(rows, stream, to, answers, i + 1);
    }
  }

  // ------------------------------------------------------------------ one turn as steps

  lemma ReadStep(s: State, run: RunId, stream: Stream, v: Values)
    requires InStream(s, run, stream) && v == ValuesOf(s, run, stream, s.workers[run].phase.total)
    ensures Takes(s, ReadCursor(run),
                  WithPhase(s, run, if RUN_ROW_CAP <= v.total then Ended(Exported(v.total))
                                    else CursorRead(stream, v.total, From(v.cursor))))
  {}

  lemma FetchStep(s: State, run: RunId, stream: Stream, v: Values)
    requires InStream(s, run, stream) && v == ValuesOf(s, run, stream, s.workers[run].phase.total)
    ensures var batch := NextBatch(RowsOf(s, run, stream), v);
            Takes(WithPhase(s, run, CursorRead(stream, v.total, From(v.cursor))), FetchBatch(run),
                  WithPhase(s, run, if batch == [] then NextStream(stream, v.total)
                                    else Fetched(stream, v.total, From(v.cursor), batch)))
  {}

  /** Some of the batch, or all of it, reaches the sink. */
  lemma SendStep(s: State, run: RunId, stream: Stream, v: Values, cursor: Key, batch: Table, part: Table, error: string)
    requires InStream(s, run, stream) && v == ValuesOf(s, run, stream, s.workers[run].phase.total)
    requires forall row | row in part :: row in batch
    ensures Takes(WithPhase(s, run, Fetched(stream, v.total, cursor, batch)), DeliverInPart(run, part, error),
                  Put(s, run, stream, ExportTurns.Sent(v, stream, part).(verdict := Stopped(error))))
  {
    var t := WithPhase(s, run, Fetched(stream, v.total, cursor, batch));
    assert Enabled(t, DeliverInPart(run, part, error));
    assert SinkOf(t, s.configs[s.workers[run].destination].endpoint) == Rows(v.sink);
    PutOwnValues(s, run, stream);
  }

  lemma DeliverStep(s: State, run: RunId, stream: Stream, v: Values, cursor: Key, batch: Table)
    requires InStream(s, run, stream) && v == ValuesOf(s, run, stream, s.workers[run].phase.total)
    ensures Takes(WithPhase(s, run, Fetched(stream, v.total, cursor, batch)), Deliver(run),
                  WithPhase(Put(s, run, stream, ExportTurns.Sent(v, stream, batch)), run,
                      Delivered(stream, v.total, cursor, batch)))
  {
    var t := WithPhase(s, run, Fetched(stream, v.total, cursor, batch));
    assert SinkOf(t, s.configs[s.workers[run].destination].endpoint) == Rows(v.sink);
    PutOwnValues(s, run, stream);
  }

  lemma AdvanceStep(s: State, run: RunId, stream: Stream, v: Values, cursor: Key, batch: Table)
    requires InStream(s, run, stream) && v == ValuesOf(s, run, stream, s.workers[run].phase.total) && batch != []
    ensures Takes(WithPhase(Put(s, run, stream, ExportTurns.Sent(v, stream, batch)), run,
            Delivered(stream, v.total, cursor, batch)),
                  Advance(run), Put(s, run, stream, Export(stream, v, batch, Fine)))
  {}

  lemma FailStep(s: State, run: RunId, phase: Phase, error: string)
    requires run in s.workers && Exporting(phase)
    ensures Takes(WithPhase(s, run, phase), Fail(run, error), WithPhase(s, run, Ended(Broken(error))))
  {}

  lemma TwoSteps(a: State, x: DestinationStore.Step, b: State, y: DestinationStore.Step, c: State)
    requires Takes(a, x, b) && Takes(b, y, c)
    ensures Path([a, b, c], [x, y])
  {}

  /** Exporting a fetched batch takes steps of the system, whatever the calls answer. */
  lemma ExportTakesSteps(s: State, run: RunId, stream: Stream, v: Values, batch: Table, answer: Answer)
      returns (path: seq<State>, steps: Steps)
    requires InStream(s, run, stream) && v == ValuesOf(s, run, stream, s.workers[run].phase.total) && batch != []
    ensures Path(path, steps) && path[0] == WithPhase(s, run, Fetched(stream, v.total, From(v.cursor), batch))
    ensures path[|steps|] == Put(s, run, stream, Export(stream, v, batch, answer))
  {
    var cursor := From(v.cursor);
    var fetched := WithPhase(s, run, Fetched(stream, v.total, cursor, batch));
    if answer.DeliveryFails? {
      KeptIsPart(batch, answer.keeps);
      var part := Kept(batch, answer.keeps);
      SendStep(s, run, stream, v, cursor, batch, part, answer.error);
      path := [fetched, Put(s, run, stream, Export(stream, v, batch, answer))];
      steps := [DeliverInPart(run, part, answer.error)];
    } else {
      var sent := Put(s, run, stream, ExportTurns.Sent(v, stream, batch));
      var delivered := WithPhase(sent, run, Delivered(stream, v.total, cursor, batch));
      var to := Put(s, run, stream, Export(stream, v, batch, answer));
      DeliverStep(s, run, stream, v, cursor, batch);
      if answer.AdvanceFails? {
        FailStep(sent, run, Delivered(stream, v.total, cursor, batch), answer.error);
        assert WithPhase(sent, run, Ended(Broken(answer.error))) == to;
        TwoSteps(fetched, Deliver(run), delivered, Fail(run, answer.error), to);
        steps := [Deliver(run), Fail(run, answer.error)];
      } else {
        AdvanceStep(s, run, stream, v, cursor, batch);
        TwoSteps(fetched, Deliver(run), delivered, Advance(run), to);
        steps := [Deliver(run), Advance(run)];
      }
      path := [fetched, delivered, to];
    }
  }

  lemma PutVerdict(s: State, run: RunId, stream: Stream, v: Values, verdict: Verdict)
    requires InStream(s, run, stream) && v == ValuesOf(s, run, stream, s.workers[run].phase.total)
    ensures Put(s, run, stream, v.(verdict := verdict)) == WithPhase(s, run, PhaseAfter(verdict, stream, v.total))
    ensures WithPhase(s, run, LoopHead(stream, v.total)) == s
  {
    PutOwnValues(s, run, stream);
  }

  /** A turn that ends before it has a batch. */
  lemma ShortTurnTakesSteps(s: State, run: RunId, stream: Stream, v: Values, answer: Answer)
      returns (path: seq<State>, steps: Steps)
    requires InStream(s, run, stream) && v == ValuesOf(s, run, stream, s.workers[run].phase.total)
    requires answer.ReadFails? || RUN_ROW_CAP <= v.total || answer.FetchFails?
    ensures Path(path, steps) && path[0] == s
    ensures path[|steps|] == Put(s, run, stream, Turn(RowsOf(s, run, stream), stream, v, answer))
  {
    var to := Put(s, run, stream, Turn(RowsOf(s, run, stream), stream, v, answer));
    if answer.ReadFails? {
      PutVerdict(s, run, stream, v, Stopped(answer.error));
      FailStep(s, run, LoopHead(stream, v.total), answer.error);
      path, steps := [s, to], [Fail(run, answer.error)];
    } else if RUN_ROW_CAP <= v.total {
      PutVerdict(s, run, stream, v, Capped);
      ReadStep(s, run, stream, v);
      path, steps := [s, to], [ReadCursor(run)];
    } else {
      var read := CursorRead(stream, v.total, From(v.cursor));
      PutVerdict(s, run, stream, v, Stopped(answer.error));
      ReadStep(s, run, stream, v);
      FailStep(s, run, read, answer.error);
      TwoSteps(s, ReadCursor(run), WithPhase(s, run, read), Fail(run, answer.error), to);
      path, steps := [s, WithPhase(s, run, read), to], [ReadCursor(run), Fail(run, answer.error)];
    }
  }

  /** A turn of the loop is a path of steps of the system. */
  lemma TurnTakesSteps(s: State, run: RunId, stream: Stream, v: Values, answer: Answer)
      returns (path: seq<State>, steps: Steps)
    requires InStream(s, run, stream) && v == ValuesOf(s, run, stream, s.workers[run].phase.total)
    ensures Path(path, steps) && path[0] == s
    ensures path[|steps|] == Put(s, run, stream, Turn(RowsOf(s, run, stream), stream, v, answer))
  {
    if answer.ReadFails? || RUN_ROW_CAP <= v.total || answer.FetchFails? {
      path, steps := ShortTurnTakesSteps(s, run, stream, v, answer);
    } else {
      var batch := NextBatch(RowsOf(s, run, stream), v);
      var read := WithPhase(s, run, CursorRead(stream, v.total, From(v.cursor)));
      var fetched := WithPhase(s, run, if batch == [] then NextStream(stream, v.total)
                                       else Fetched(stream, v.total, From(v.cursor), batch));
      ReadStep(s, run, stream, v);
      FetchStep(s, run, stream, v);
      TwoSteps(s, ReadCursor(run), read, FetchBatch(run), fetched);
      path, steps := [s, read, fetched], [ReadCursor(run), FetchBatch(run)];
      if batch == [] {
        PutVerdict(s, run, stream, v, Exhausted);
      } else {
        var rest, more := ExportTakesSteps(s, run, stream, v, batch, answer);
        PathsTogether(path, steps, rest, more);
        path, steps := path + rest[1..], steps + more;
      }
    }
  }

  // ------------------------------------------------------------------ streams and runs

  /** The loop over one stream, and which answer comes next. */
  ghost function AfterStream(s: State, run: RunId, stream: Stream, answers: Answers, i: nat): (State, nat) {
    if !InStream(s, run, stream) then (s, i)
    else
      var (to, j) :=
        Turns(RowsOf(s, run, stream), stream, ValuesOf(s, run, stream, s.workers[run].phase.total), answers, i);
      (Put(s, run, stream, to), j)
  }

  /** Unrolling the loop by one turn. */
  lemma TurnsUnroll(rows: Table, stream: Stream, v: Values, answers: Answers, i: nat)
    requires v.verdict == More
    ensures Turns(rows, stream, v, answers, i) == Turns(rows, stream, Turn(rows, stream, v, answers(i)), answers, i + 1)
  {
    TurnsSpend(rows, stream);
    assert TurnOf(rows, stream)(v, answers(i)) == Turn(rows, stream, v, answers(i));
  }

  lemma TurnsEnd(rows: Table, stream: Stream, v: Values, answers: Answers, i: nat)
    requires v.verdict != More
    ensures Turns(rows, stream, v, answers, i) == (v, i)
  {
    TurnsSpend(rows, stream);
  }

  /** The state after a turn that goes on continues as the loop would. */
  lemma StreamUnrolls(s: State, run: RunId, stream: Stream, v: Values, to: Values, answers: Answers, i: nat)
    requires InStream(s, run, stream) && v == ValuesOf(s, run, stream, s.workers[run].phase.total)
    requires to == Turn(RowsOf(s, run, stream), stream, v, answers(i)) && to.verdict == More
    ensures var t := Put(s, run, stream, to);
            && InStream(t, run, stream) && to == ValuesOf(t, run, stream, t.workers[run].phase.total)
            && AfterStream(t, run, stream, answers, i + 1) == AfterStream(s, run, stream, answers, i)
  {
    var rows := RowsOf(s, run, stream);
    TurnGrows(rows, stream, v, answers(i));
    ValuesOfPut(s, run, stream, to);
    TurnsUnroll(rows, stream, v, answers, i);
    TurnsGrow(rows, stream, to, answers, i + 1);
    PutOver(s, run, stream, to, Turns(rows, stream, to, answers, i + 1).0);
  }

  lemma {:induction false} LoopTakesSteps(s: State, run: RunId, stream: Stream, v: Values, answers: Answers, i: nat)
      returns (path: seq<State>, steps: Steps)
    requires InStream(s, run, stream) && v == ValuesOf(s, run, stream, s.workers[run].phase.total)
    ensures Path(path, steps) && path[0] == s && path[|steps|] == AfterStream(s, run, stream, answers, i).0
    decreases Budget(v)
  {
    var rows := RowsOf(s, run, stream);
    var to := Turn(rows, stream, v, answers(i));
    path, steps := TurnTakesSteps(s, run, stream, v, answers(i));
    if to.verdict == More {
      StreamUnrolls(s, run, stream, v, to, answers, i);
      TurnSpends(rows, stream, v, answers(i));
      var rest, more := LoopTakesSteps(Put(s, run, stream, to), run, stream, to, answers, i + 1);
      PathsTogether(path, steps, rest, more);
      path, steps := path + rest[1..], steps + more;
    } else {
      TurnsUnroll(rows, stream, v, answers, i);
      TurnsEnd(rows, stream, to, answers, i + 1);
    }
  }

  lemma TurnSpends(rows: Table, stream: Stream, v: Values, answer: Answer)
    requires v.verdict == More
    ensures Budget(Turn(rows, stream, v, answer)) < Budget(v)
  {}

  lemma StreamTakesSteps(s: State, run: RunId, stream: Stream, answers: Answers, i: nat)
      returns (path: seq<State>, steps: Steps)
    ensures Path(path, steps) && path[0] == s && path[|steps|] == AfterStream(s, run, stream, answers, i).0
  {
    if InStream(s, run, stream) {
      path, steps := LoopTakesSteps(s, run, stream, ValuesOf(s, run, stream, s.workers[run].phase.total), answers, i);
    } else {
      path, steps := [s], [];
    }
  }

  /** A whole run: interactions, then reports. */
  ghost function AfterRun(s: State, run: RunId, answers: Answers): State {
    var (mid, i) := AfterStream(s, run, Interactions, answers, 0);
    AfterStream(mid, run, FeedbackReports, answers, i).0
  }

  /** The export loop refines the step system: a whole run, failing where it may, is a path of its steps. */
  lemma RunTakesSteps(s: State, run: RunId, answers: Answers) returns (path: seq<State>, steps: Steps)
    ensures Path(path, steps) && path[0] == s && path[|steps|] == AfterRun(s, run, answers)
  {
    var first, x := StreamTakesSteps(s, run, Interactions, answers, 0);
    var (mid, i) := AfterStream(s, run, Interactions, answers, 0);
    var rest, y := StreamTakesSteps(mid, run, FeedbackReports, answers, i);
    PathsTogether(first, x, rest, y);
    path, steps := first + rest[1..], x + y;
  }

  /** Wherever a behaviour has led, a run from there leaves no row below a cursor missing from its sink. */
  lemma RunLeavesNothingMissing(states: seq<State>, done: Steps, run: RunId, answers: Answers, d: DestId,
      stream: Stream, row: Row)
    requires Behaviour(states, done)
    requires var t := AfterRun(states[|done|], run, answers);
             && d in t.dests && d in t.configs
             && row in SourceOf(t, t.configs[d].workspace, stream).rows
             && AtMost(row.key, CursorOf(t, d, stream))
    ensures var t := AfterRun(states[|done|], run, answers);
            SinkKey(stream, row.key.id) in SinkOf(t, t.configs[d].endpoint)
  {
    var path, steps := RunTakesSteps(states[|done|], run, answers);
    PathExtends(states, done, path, steps);
    CursorCoverage.NothingBelowTheCursorIsMissing(states + path[1..], done + steps, |done + steps|, d, stream, row);
  }

  // ------------------------------------------------------------------ what a run exports

  function Pending(s: State, run: RunId, stream: Stream): Table
    requires run in s.workers
  {
    After(RowsOf(s, run, stream), CursorOf(s, s.workers[run].destination, stream))
  }

  function ProgressOf(s: State, d: DestId, exported: nat): Progress {
    Progress(CursorOf(s, d, Interactions), CursorOf(s, d, FeedbackReports), exported)
  }

  /** A run changes its own cursors, its own sink and its own worker, and nothing else. */
  ghost predicate OnlyExports(s: State, run: RunId, t: State)
    requires run in s.workers && s.workers[run].destination in s.configs
  {
    var w := s.workers[run];
    && t.now == s.now && t.dests == s.dests && t.runs == s.runs && t.sources == s.sources
    && t.configs == s.configs && t.issued == s.issued
    && run in t.workers && t.workers == s.workers[run := w.(phase := t.workers[run].phase)]
    && (forall d, stream | d != w.destination :: CursorOf(t, d, stream) == CursorOf(s, d, stream))
    && (forall e | e != s.configs[w.destination].endpoint :: SinkOf(t, e) == SinkOf(s, e))
  }

  /** The run's result: all rows the cap allows, or the failed call's error and what was exported before it. */
  ghost predicate RunResult(s: State, run: RunId, t: State, a: nat, b: nat)
    requires run in s.workers && s.workers[run].destination in s.configs && run in t.workers
  {
    var d := s.workers[run].destination;
    var first, second := Pending(s, run, Interactions), Pending(s, run, FeedbackReports);
    var before, sink := SinkOf(s, s.configs[d].endpoint), SinkOf(t, s.configs[d].endpoint);
    && a <= |first| && b <= |second| && (b > 0 ==> a == |first|)
    && CursorOf(t, d, Interactions) == CursorAt(first, CursorOf(s, d, Interactions), a)
    && CursorOf(t, d, FeedbackReports) == CursorAt(second, CursorOf(s, d, FeedbackReports), b)
    && (match t.workers[run].phase
        case Ended(Exported(n)) =>
          n == a + b && a == Reach(|first|, 0) && b == Reach(|second|, a)
          && sink == SinkAfter(before, first[..a], second[..b])
        case Ended(Broken(_)) =>
          || LeavesOver(SinkAfter(before, first[..a], second[..b]), sink, Interactions, first[a..])
          || LeavesOver(SinkAfter(before, first[..a], second[..b]), sink, FeedbackReports, second[b..])
        case _ => false)
  }

  /** The run on values, written back. */
  ghost function PutRun(s: State, run: RunId, to: Values, last: Values): State
    requires run in s.workers && s.workers[run].destination in s.configs
  {
    if to.verdict == Exhausted then Put(Put(s, run, Interactions, to), run, FeedbackReports, last)
    else Put(s, run, Interactions, to)
  }

  lemma RunIsPut(s: State, run: RunId, answers: Answers)
    requires InStream(s, run, Interactions)
    ensures var v := ValuesOf(s, run, Interactions, s.workers[run].phase.total);
            var cursor := CursorRow(s, s.workers[run].destination, FeedbackReports);
            var (to, last) :=
              RunTurns(RowsOf(s, run, Interactions), RowsOf(s, run, FeedbackReports), v, cursor, answers);
            && AfterRun(s, run, answers) == PutRun(s, run, to, last)
            && to.verdict != More && last.verdict != More && Grown(v, to)
            && (cursor.Some? ==> last.cursor.Some?) && (to.sink.Some? ==> last.sink.Some?)
  {
    var v := ValuesOf(s, run, Interactions, s.workers[run].phase.total);
    var cursor := CursorRow(s, s.workers[run].destination, FeedbackReports);
    TurnsGrow(RowsOf(s, run, Interactions), Interactions, v, answers, 0);
    var (to, i) := Turns(RowsOf(s, run, Interactions), Interactions, v, answers, 0);
    var mid := Put(s, run, Interactions, to);
    if to.verdict == Exhausted {
      var start := Values(cursor, to.sink, to.total, More);
      TurnsGrow(RowsOf(s, run, FeedbackReports), FeedbackReports, start, answers, i);
      assert InStream(mid, run, FeedbackReports);
      assert ValuesOf(mid, run, FeedbackReports, mid.workers[run].phase.total) == start;
      assert RowsOf(mid, run, FeedbackReports) == RowsOf(s, run, FeedbackReports);
    } else {
      assert !InStream(mid, run, FeedbackReports);
    }
  }

  lemma PutChangesOnly(s: State, run: RunId, stream: Stream, v: Values)
    requires run in s.workers && s.workers[run].destination in s.configs
    ensures OnlyExports(s, run, Put(s, run, stream, v))
  {}

  lemma OnlyExportsTogether(s: State, run: RunId, mid: State, t: State)
    requires run in s.workers && s.workers[run].destination in s.configs
    requires OnlyExports(s, run, mid) && OnlyExports(mid, run, t)
    ensures OnlyExports(s, run, t)
  {}

  lemma PutRunChangesOnly(s: State, run: RunId, to: Values, last: Values)
    requires run in s.workers && s.workers[run].destination in s.configs
    ensures OnlyExports(s, run, PutRun(s, run, to, last))
  {
    var mid := Put(s, run, Interactions, to);
    PutChangesOnly(s, run, Interactions, to);
    PutChangesOnly(mid, run, FeedbackReports, last);
    OnlyExportsTogether(s, run, mid, Put(mid, run, FeedbackReports, last));
  }

  /** Where a run's values stand in the store it leaves. */
  lemma PutRunHas(s: State, run: RunId, v: Values, cursor: Option<Key>, to: Values, last: Values)
    requires InStream(s, run, Interactions) && v == ValuesOf(s, run, Interactions, s.workers[run].phase.total)
    requires cursor == CursorRow(s, s.workers[run].destination, FeedbackReports)
    requires Grown(v, to) && (cursor.Some? ==> last.cursor.Some?) && (to.sink.Some? ==> last.sink.Some?)
    requires to.verdict != Exhausted ==> last == Values(cursor, to.sink, to.total, to.verdict)
    requires last.verdict != More
    ensures var t, d := PutRun(s, run, to, last), s.workers[run].destination;
            && CursorOf(t, d, Interactions) == From(to.cursor) && CursorOf(t, d, FeedbackReports) == From(last.cursor)
            && SinkOf(t, s.configs[d].endpoint) == Rows(last.sink)
            && t.workers[run].phase == (match last.verdict
                                        case Stopped(error) => Ended(Broken(error))
                                        case _ => Ended(Exported(last.total)))
  {}

  lemma OutcomeIsResult(s: State, run: RunId, v: Values, cursor: Option<Key>, to: Values, last: Values, t: State,
      a: nat, b: nat)
    requires InStream(s, run, Interactions) && v == ValuesOf(s, run, Interactions, s.workers[run].phase.total)
    requires cursor == CursorRow(s, s.workers[run].destination, FeedbackReports)
    requires RunOutcome(Pending(s, run, Interactions), Pending(s, run, FeedbackReports), v, cursor, to, last, a, b)
    requires run in t.workers
    requires var d := s.workers[run].destination;
             && CursorOf(t, d, Interactions) == From(to.cursor) && CursorOf(t, d, FeedbackReports) == From(last.cursor)
             && SinkOf(t, s.configs[d].endpoint) == Rows(last.sink)
             && t.workers[run].phase == (match last.verdict
                                         case Stopped(error) => Ended(Broken(error))
                                         case _ => Ended(Exported(last.total)))
    ensures RunResult(s, run, t, a, b)
  {
    assert SinkOf(s, s.configs[s.workers[run].destination].endpoint) == Rows(v.sink);
    assert CursorOf(s, s.workers[run].destination, FeedbackReports) == From(cursor);
  }

  /**
   * A run exports its pending interactions and then its pending reports, in order: all that
   * the cap allows, reported as its total; or, after a failed call, exactly those before it
   * and perhaps some of the rows behind them.
   */
  lemma RunExportsInOrder(s: State, run: RunId, answers: Answers) returns (a: nat, b: nat)
    requires InStream(s, run, Interactions) && s.workers[run].phase.total == 0
    requires Ascending(RowsOf(s, run, Interactions)) && Ascending(RowsOf(s, run, FeedbackReports))
    ensures var t := AfterRun(s, run, answers);
            && OnlyExports(s, run, t) && RunResult(s, run, t, a, b)
            && (t.workers[run].phase.outcome.Broken? ==>
              exists i :: Fails(answers(i), t.workers[run].phase.outcome.error))
  {
    var v := ValuesOf(s, run, Interactions, 0);
    var cursor := CursorRow(s, s.workers[run].destination, FeedbackReports);
    var rows, others := RowsOf(s, run, Interactions), RowsOf(s, run, FeedbackReports);
    var (to, last) := RunTurns(rows, others, v, cursor, answers);
    a, b := RunExports(rows, others, v, cursor, answers);
    RunIsPut(s, run, answers);
    PutRunHas(s, run, v, cursor, to, last);
    PutRunChangesOnly(s, run, to, last);
    OutcomeIsResult(s, run, v, cursor, to, last, PutRun(s, run, to, last), a, b);
  }

  /** Every call of a run is answered. */
  ghost predicate AllFine(answers: Answers) {
    forall i :: answers(i).Fine?
  }

  /** A run whose calls all succeed moves the cursors as `RunOnce` says and reports that many records. */
  lemma RunIsRunOnce(s: State, run: RunId, answers: Answers)
    requires InStream(s, run, Interactions) && s.workers[run].phase.total == 0 && AllFine(answers)
    requires Ascending(RowsOf(s, run, Interactions)) && Ascending(RowsOf(s, run, FeedbackReports))
    ensures var t, d := AfterRun(s, run, answers), s.workers[run].destination;
            var to := RunOnce(RowsOf(s, run, Interactions), RowsOf(s, run, FeedbackReports), ProgressOf(s, d, 0));
            OnlyExports(s, run, t) && t.workers[run].phase == Ended(Exported(to.exported))
                && ProgressOf(t, d, to.exported) == to
  {
    var a, b := RunExportsInOrder(s, run, answers);
    assert forall i, error :: !Fails(answers(i), error);
  }
}
