/**
 * The data-destination export engine as a labelled step system: the claim tables, the
 * cursors, the source tables, the customers' sinks and the workers in flight. Every SQL
 * transaction and every delivery is one step; a crash or an error may fall between any two.
 */
module DestinationStore {
  import opened Basics
  import opened ExportTable

  /** Rows fetched per delivery attempt, rows per run, and the three time limits in seconds. */
  const BATCH_SIZE: nat := 500
  const RUN_ROW_CAP: nat := 10000
  const RUN_TIMEOUT: nat := 480
  const STALE_CLAIM_AGE: nat := 600
  const FAILURE_RETRY_DELAY: nat := 300
  const MAX_ERROR_LENGTH: nat := 500

  type DestId = nat
  type RunId = nat
  type Token = nat
  type Workspace = nat
  type Endpoint = nat

  datatype Stream = Interactions | FeedbackReports

  /** The part of a destination row that no operation changes, and that every job carries. */
  datatype Config = Config(workspace: Workspace, endpoint: Endpoint)

  datatype Destination = Destination(
    enabled: bool, interval: nat, nextSyncAt: int, claimedAt: Option<int>, claimToken: Option<Token>)

  datatype Trigger = Scheduled | Manual

  datatype Status = Running | Succeeded | Failed

  datatype Run = Run(
    destination: DestId, trigger: Trigger, status: Status, recordsExported: nat, error: Option<string>,
    startedAt: int, finishedAt: Option<int>)

  datatype Outcome = Exported(records: nat) | Broken(error: string)

  /** Where a worker stands in its export loop. */
  datatype Phase =
    | Claimed
    | LoopHead(stream: Stream, total: nat)
    | CursorRead(stream: Stream, total: nat, cursor: Key)
    | Fetched(stream: Stream, total: nat, cursor: Key, batch: Table)
    | Delivered(stream: Stream, total: nat, cursor: Key, batch: Table)
    | Ended(outcome: Outcome)

  /** A claimed job and the task that drains it. */
  datatype Worker = Worker(
    destination: DestId, interval: nat, token: Token, claimedAt: int, deadline: int, phase: Phase)

  /** A source table and the largest key ever committed to it. */
  datatype Source = Source(rows: Table, high: Key)

  datatype SinkKey = SinkKey(stream: Stream, id: nat)

  type Sink = map<SinkKey, Row>

  /**
   * `configs` and `issued` are history: the configuration of every destination ever
   * created, and the run each claim token was issued with.
   */
  datatype State = State(
    now: int,
    dests: map<DestId, Destination>,
    runs: map<RunId, Run>,
    cursors: map<(DestId, Stream), Key>,
    sources: map<(Workspace, Stream), Source>,
    sinks: map<Endpoint, Sink>,
    workers: map<RunId, Worker>,
    configs: map<DestId, Config>,
    issued: map<Token, RunId>)

  function SourceOf(s: State, workspace: Workspace, stream: Stream): Source {
    if (workspace, stream) in s.sources then s.sources[(workspace, stream)] else Source([], NIL_KEY)
  }

  function SinkOf(s: State, endpoint: Endpoint): Sink {
    if endpoint in s.sinks then s.sinks[endpoint] else map[]
  }

  /** A stream without a cursor row starts from the nil cursor. */
  function CursorOf(s: State, d: DestId, stream: Stream): Key {
    if (d, stream) in s.cursors then s.cursors[(d, stream)] else NIL_KEY
  }

  predicate Older(at: Option<int>, before: int) {
    at.Some? && at.value < before
  }

  /** Idempotent upserts keyed by stream and id. */
  function Upsert(sink: Sink, stream: Stream, batch: Table): Sink
    decreases |batch|
  {
    if batch == [] then sink
    else Upsert(sink, stream, batch[..|batch| - 1])[SinkKey(stream, batch[|batch| - 1].key.id) := batch[|batch| - 1]]
  }

  datatype Step =
    | Tick(seconds: nat)
    | Create(d: DestId, config: Config, interval: nat)
    | Update(d: DestId, enabled: Option<bool>, newInterval: Option<nat>)
    | Delete(d: DestId)
    | Write(workspace: Workspace, stream: Stream, row: Row)
    | Purge(workspace: Workspace, stream: Stream, id: nat)
    | ReleaseStale(before: int)
    | Claim(d: DestId, token: Token, run: RunId, trigger: Trigger)
    | StartDrain(run: RunId)
    | ReadCursor(run: RunId)
    | FetchBatch(run: RunId)
    | Deliver(run: RunId)
    | DeliverInPart(run: RunId, part: Table, error: string)
    | Advance(run: RunId)
    | Fail(run: RunId, error: string)
    | TimeOut(run: RunId)
    | Finish(run: RunId)
    | Crash(run: RunId)

  predicate InPhase(s: State, run: RunId, ok: Phase -> bool) {
    run in s.workers && ok(s.workers[run].phase)
  }

  /** A task that is polling its export: claimed jobs not started and ended exports are not. */
  predicate Exporting(phase: Phase) {
    !phase.Claimed? && !phase.Ended?
  }

  /** When the code can take a step. Claim tokens and row ids are UUIDs: never issued before. */
  predicate Enabled(s: State, step: Step) {
    match step
    case Tick(_) => true
    case Create(d, _, _) => d !in s.configs
    case Update(d, _, _) => d in s.dests
    case Delete(d) => d in s.dests
    case Write(workspace, stream, row) => Less(SourceOf(s, workspace, stream).high, row.key)
    case Purge(workspace, stream, id) => true
    case ReleaseStale(_) => true
    case Claim(d, token, run, trigger) =>
      && token !in s.issued && run !in s.issued.Values
      && d in s.dests && s.dests[d].claimedAt.None?
      && (trigger.Scheduled? ==> s.dests[d].enabled && s.dests[d].nextSyncAt <= s.now)
    case StartDrain(run) => InPhase(s, run, (p: Phase) => p.Claimed?)
    case ReadCursor(run) => InPhase(s, run, (p: Phase) => p.LoopHead?)
    case FetchBatch(run) => InPhase(s, run, (p: Phase) => p.CursorRead?)
    case Deliver(run) => InPhase(s, run, (p: Phase) => p.Fetched?)
    case DeliverInPart(run, part, _) =>
      InPhase(s, run, (p: Phase) => p.Fetched?) && forall row | row in part :: row in s.workers[run].phase.batch
    case Advance(run) => InPhase(s, run, (p: Phase) => p.Delivered?) && s.workers[run].destination in s.dests
    case Fail(run, _) => InPhase(s, run, (p: Phase) => Exporting(p))
    case TimeOut(run) => InPhase(s, run, (p: Phase) => Exporting(p)) && s.workers[run].deadline <= s.now
    case Finish(run) => InPhase(s, run, (p: Phase) => p.Ended?)
    case Crash(run) => run in s.workers
  }

  function ApplyUpdate(s: State, d: DestId, enabled: Option<bool>, newInterval: Option<nat>): State
    requires d in s.dests
  {
    var row := s.dests[d];
    s.(dests := s.dests[d := row.(
         enabled := if enabled.Some? then enabled.value else row.enabled,
         interval := if newInterval.Some? then newInterval.value else row.interval,
         nextSyncAt := if enabled == Some(true) || newInterval.Some? then s.now else row.nextSyncAt)])
  }

  /** `ON DELETE CASCADE` takes the destination's runs and cursors with it. */
  function ApplyDelete(s: State, d: DestId): State {
    s.(dests := map e | e in s.dests && e != d :: s.dests[e],
       runs := map r | r in s.runs && s.runs[r].destination != d :: s.runs[r],
       cursors := map c | c in s.cursors && c.0 != d :: s.cursors[c])
  }

  function ApplyWrite(s: State, workspace: Workspace, stream: Stream, row: Row): State {
    s.(sources := s.sources[(workspace, stream) :=
         Source(Without(SourceOf(s, workspace, stream).rows, row.key.id) + [row], row.key)])
  }

  function ApplyPurge(s: State, workspace: Workspace, stream: Stream, id: nat): State {
    s.(sources := s.sources[(workspace, stream) :=
         SourceOf(s, workspace, stream).(rows := Without(SourceOf(s, workspace, stream).rows, id))])
  }

  const STALE_ERROR := "Sync worker restarted before the run finished"

  /** One transaction: clear the claims, then fail the runs, older than `before`. */
  function ApplyRelease(s: State, before: int): State {
    s.(dests := map d | d in s.dests ::
         if Older(s.dests[d].claimedAt, before) then s.dests[d].(claimedAt := None, claimToken := None) else s.dests[d],
       runs := map r | r in s.runs ::
         if s.runs[r].status.Running? && s.runs[r].startedAt < before
         then s.runs[r].(status := Failed, error := Some(STALE_ERROR), finishedAt := Some(s.now)) else s.runs[r])
  }

  /** One transaction: take the claim and insert its run, both stamped with the same `NOW()`. */
  function ApplyClaim(s: State, d: DestId, token: Token, run: RunId, trigger: Trigger): State
    requires d in s.dests
  {
    s.(dests := s.dests[d := s.dests[d].(claimedAt := Some(s.now), claimToken := Some(token))],
       runs := s.runs[run := Run(d, trigger, Running, 0, None, s.now, None)],
       workers := s.workers[run := Worker(d, s.dests[d].interval, token, s.now, s.now + STALE_CLAIM_AGE, Claimed)],
       issued := s.issued[token := run])
  }

  function WithPhase(s: State, run: RunId, phase: Phase): State
    requires run in s.workers
  {
    s.(workers := s.workers[run := s.workers[run].(phase := phase)])
  }

  function ApplyStartDrain(s: State, run: RunId): State
    requires run in s.workers
  {
    s.(workers :=
        s.workers[run := s.workers[run].(deadline := s.now + RUN_TIMEOUT, phase := LoopHead(Interactions, 0))])
  }

  /** Interactions first, then feedback reports, then done. */
  function NextStream(stream: Stream, total: nat): Phase {
    if stream.Interactions? then LoopHead(FeedbackReports, total) else Ended(Exported(total))
  }

  function AfterCursorRead(s: State, run: RunId): Phase
    requires InPhase(s, run, (p: Phase) => p.LoopHead?)
  {
    var w := s.workers[run];
    if RUN_ROW_CAP <= w.phase.total then Ended(Exported(w.phase.total))
    else CursorRead(w.phase.stream, w.phase.total, CursorOf(s, w.destination, w.phase.stream))
  }

  function BatchLimit(total: nat): nat {
    var remaining := if RUN_ROW_CAP <= total then 0 else RUN_ROW_CAP - total;
    if BATCH_SIZE <= remaining then BATCH_SIZE else remaining
  }

  /** The rows of the job's workspace; a job of an unknown destination would read none. */
  function JobSource(s: State, w: Worker, stream: Stream): Source {
    if w.destination in s.configs then SourceOf(s, s.configs[w.destination].workspace, stream) else Source([], NIL_KEY)
  }

  function AfterFetch(s: State, run: RunId): Phase
    requires InPhase(s, run, (p: Phase) => p.CursorRead?)
  {
    var w := s.workers[run];
    var batch := Fetch(JobSource(s, w, w.phase.stream).rows, w.phase.cursor, BatchLimit(w.phase.total));
    if batch == [] then NextStream(w.phase.stream, w.phase.total)
    else Fetched(w.phase.stream, w.phase.total, w.phase.cursor, batch)
  }

  function SendTo(s: State, w: Worker, stream: Stream, part: Table): map<Endpoint, Sink> {
    if w.destination !in s.configs then s.sinks else
    var endpoint := s.configs[w.destination].endpoint;
    s.sinks[endpoint := Upsert(SinkOf(s, endpoint), stream, part)]
  }

  function AfterAdvance(phase: Phase): Phase
    requires phase.Delivered?
  {
    var total := phase.total + |phase.batch|;
    if |phase.batch| < BATCH_SIZE then NextStream(phase.stream, total) else LoopHead(phase.stream, total)
  }

  function ApplyAdvance(s: State, run: RunId): State
    requires InPhase(s, run, (p: Phase) => p.Delivered?)
  {
    var w := s.workers[run];
    var last := if w.phase.batch == [] then w.phase.cursor else w.phase.batch[|w.phase.batch| - 1].key;
    WithPhase(s.(cursors := s.cursors[(w.destination, w.phase.stream) := last]), run, AfterAdvance(w.phase))
  }

  function Clip(error: string): string {
    if |error| <= MAX_ERROR_LENGTH then error else error[..MAX_ERROR_LENGTH]
  }

  function Settled(run: Run, outcome: Outcome, now: int): Run {
    match outcome
    case Exported(records) =>
      run.(status := Succeeded, recordsExported := records, error := None, finishedAt := Some(now))
    case Broken(error) =>
      run.(status := Failed, recordsExported := 0, error := Some(Clip(error)), finishedAt := Some(now))
  }

  function FinishRuns(s: State, run: RunId, w: Worker, outcome: Outcome): map<RunId, Run> {
    if run in s.runs && s.runs[run].destination == w.destination && s.runs[run].status.Running?
    then s.runs[run := Settled(s.runs[run], outcome, s.now)] else s.runs
  }

  function FinishDests(s: State, w: Worker, outcome: Outcome): map<DestId, Destination> {
    if w.destination in s.dests && s.dests[w.destination].claimToken == Some(w.token)
    then s.dests[w.destination := s.dests[w.destination].(
           claimedAt := None, claimToken := None,
           nextSyncAt := s.now + if outcome.Exported? then w.interval else FAILURE_RETRY_DELAY)]
    else s.dests
  }

  function Leave(s: State, run: RunId): State {
    s.(workers := map r | r in s.workers && r != run :: s.workers[r])
  }

  /** One transaction guarded by the run's status and the claim token; the worker is then done. */
  function ApplyFinish(s: State, run: RunId): State
    requires InPhase(s, run, (p: Phase) => p.Ended?)
  {
    var w := s.workers[run];
    Leave(s.(runs := FinishRuns(s, run, w, w.phase.outcome), dests := FinishDests(s, w, w.phase.outcome)), run)
  }

  const TIMEOUT_ERROR := "Sync exceeded the 480 second run limit"

  function Apply(s: State, step: Step): State
    requires Enabled(s, step)
  {
    match step
    case Tick(seconds) => s.(now := s.now + seconds)
    case Create(d, config, interval) =>
      s.(dests := s.dests[d := Destination(true, interval, s.now, None, None)], configs := s.configs[d := config])
    case Update(d, enabled, newInterval) => ApplyUpdate(s, d, enabled, newInterval)
    case Delete(d) => ApplyDelete(s, d)
    case Write(workspace, stream, row) => ApplyWrite(s, workspace, stream, row)
    case Purge(workspace, stream, id) => ApplyPurge(s, workspace, stream, id)
    case ReleaseStale(before) => ApplyRelease(s, before)
    case Claim(d, token, run, trigger) => ApplyClaim(s, d, token, run, trigger)
    case StartDrain(run) => ApplyStartDrain(s, run)
    case ReadCursor(run) => WithPhase(s, run, AfterCursorRead(s, run))
    case FetchBatch(run) => WithPhase(s, run, AfterFetch(s, run))
    case Deliver(run) =>
      var w := s.workers[run];
      WithPhase(s.(sinks := SendTo(s, w, w.phase.stream, w.phase.batch)), run,
                Delivered(w.phase.stream, w.phase.total, w.phase.cursor, w.phase.batch))
    case DeliverInPart(run, part, error) =>
      var w := s.workers[run];
      WithPhase(s.(sinks := SendTo(s, w, w.phase.stream, part)), run, Ended(Broken(error)))
    case Advance(run) => ApplyAdvance(s, run)
    case Fail(run, error) => WithPhase(s, run, Ended(Broken(error)))
    case TimeOut(run) => WithPhase(s, run, Ended(Broken(TIMEOUT_ERROR)))
    case Finish(run) => ApplyFinish(s, run)
    case Crash(run) => Leave(s, run)
  }

  /** An empty deployment. */
  predicate Initial(s: State) {
    s.dests == map[] && s.runs == map[] && s.cursors == map[] && s.sources == map[] && s.sinks == map[]
    && s.workers == map[] && s.configs == map[] && s.issued == map[]
  }

  /** A run of the system: states linked by enabled steps, in any interleaving. */
  ghost predicate Behaviour(states: seq<State>, steps: seq<Step>) {
    && |states| == |steps| + 1
    && Initial(states[0])
    && forall i | 0 <= i < |steps| :: Enabled(states[i], steps[i]) && states[i + 1] == Apply(states[i], steps[i])
  }
}
