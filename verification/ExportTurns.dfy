/**
 * The export loop over one frozen stream, on values alone: the stream's cursor, the sink,
 * and how many rows the run has exported.
 */
module ExportTurns {
  import opened Basics
  import opened ExportTable
  import opened DestinationStore
  import opened ExportProgress

  /** How one turn of the loop is answered from outside: every call may fail where it stands. */
  datatype Answer =
    | Fine
    | ReadFails(error: string)
    | FetchFails(error: string)
    | DeliveryFails(keeps: Row -> bool, error: string)
    | AdvanceFails(error: string)

  type Answers = nat -> Answer

  /** The call this answers fails with this error. */
  predicate Fails(answer: Answer, error: string) {
    !answer.Fine? && answer.error == error
  }

  /** Why the loop over a stream goes on or stops. */
  datatype Verdict = More | Exhausted | Capped | Stopped(error: string)

  /** A stream's cursor row, the sink's rows and the run's total. */
  datatype Values = Values(cursor: Option<Key>, sink: Option<Sink>, total: nat, verdict: Verdict)

  function From(cursor: Option<Key>): Key {
    if cursor.Some? then cursor.value else NIL_KEY
  }

  function Rows(sink: Option<Sink>): Sink {
    if sink.Some? then sink.value else map[]
  }

  /** The rows of a failed delivery that the sink kept all the same. */
  function Kept(batch: Table, keeps: Row -> bool): Table {
    if batch == [] then []
    else (if keeps(batch[0]) then [batch[0]] else []) + Kept(batch[1..], keeps)
  }

  function NextBatch(rows: Table, v: Values): Table {
    Fetch(rows, From(v.cursor), BatchLimit(v.total))
  }

  function Sent(v: Values, stream: Stream, batch: Table): Values {
    v.(sink := Some(Upsert(Rows(v.sink), stream, batch)))
  }

  /** Delivering and advancing over a batch. */
  function Export(stream: Stream, v: Values, batch: Table, answer: Answer): Values {
    if batch == [] then v.(verdict := Exhausted)
    else if answer.DeliveryFails? then Sent(v, stream, Kept(batch, answer.keeps)).(verdict := Stopped(answer.error))
    else if answer.AdvanceFails? then Sent(v, stream, batch).(verdict := Stopped(answer.error))
    else
      Sent(v, stream, batch).(
        cursor := Some(batch[|batch| - 1].key),
        total := v.total + |batch|,
        verdict := if |batch| < BATCH_SIZE then Exhausted else More)
  }

  /** One turn: read the cursor, fetch, deliver, and only then advance. */
  function Turn(rows: Table, stream: Stream, v: Values, answer: Answer): Values {
    if answer.ReadFails? then v.(verdict := Stopped(answer.error))
    else if RUN_ROW_CAP <= v.total then v.(verdict := Capped)
    else if answer.FetchFails? then v.(verdict := Stopped(answer.error))
    else Export(stream, v, NextBatch(rows, v), answer)
  }

  // ------------------------------------------------------------------ the loop

  /** How much the loop may still do. */
  function Budget(v: Values): nat {
    if !v.verdict.More? then 0 else if RUN_ROW_CAP <= v.total then 1 else 1 + RUN_ROW_CAP - v.total
  }

  type Step = (Values, Answer) -> Values

  /** Every turn of the loop leaves it less to do. */
  ghost predicate Spends(turn: Step) {
    forall v: Values, a: Answer :: v.verdict.More? ==> Budget(turn(v, a)) < Budget(v)
  }

  /** Turns until the verdict is in; turn `i` is answered by `answers(i)`. */
  ghost function Iterate(turn: Step, v: Values, answers: Answers, i: nat): (Values, nat)
    requires Spends(turn)
    decreases Budget(v)
  {
    if !v.verdict.More? then (v, i) else Iterate(turn, turn(v, answers(i)), answers, i + 1)
  }

  function TurnOf(rows: Table, stream: Stream): Step {
    (v: Values, a: Answer) => Turn(rows, stream, v, a)
  }

  lemma TurnsSpend(rows: Table, stream: Stream)
    ensures Spends(TurnOf(rows, stream))
  {}

  /** The loop over one stream. */
  ghost function Turns(rows: Table, stream: Stream, v: Values, answers: Answers, i: nat): (Values, nat) {
    TurnsSpend(rows, stream);
    Iterate(TurnOf(rows, stream), v, answers, i)
  }

  // ------------------------------------------------------------------ upserts

  lemma {:induction false} UpsertTogether(sink: Sink, stream: Stream, first: Table, second: Table)
    ensures Upsert(Upsert(sink, stream, first), stream, second) == Upsert(sink, stream, first + second)
    decreases |second|
  {
    if second == [] {
      assert first + second == first;
    } else {
      var both := first + second;
      assert both[..|both| - 1] == first + second[..|second| - 1];
      UpsertTogether(sink, stream, first, second[..|second| - 1]);
    }
  }

  lemma {:induction false} KeptIsPart(batch: Table, keeps: Row -> bool)
    ensures forall row | row in Kept(batch, keeps) :: row in batch
  {
    if batch != [] {
      KeptIsPart(batch[1..], keeps);
    }
  }

  // ------------------------------------------------------------------ positions

  /** The loop's values once the first `done` of the pending rows are exported. */
  function At(v: Values, stream: Stream, pending: Table, done: nat): Values
    requires done <= |pending|
  {
    if done == 0 then v
    else
      Values(Some(pending[done - 1].key), Some(Upsert(Rows(v.sink), stream, pending[..done])), v.total + done, More)
  }

  /** How many rows the turn at a position takes. */
  function Length(pending: nat, done: nat, total: nat): nat
    requires done <= pending
  {
    Min(pending - done, BatchLimit(total))
  }

  lemma BatchAt(rows: Table, v: Values, stream: Stream, done: nat)
    requires Ascending(rows) && done <= |After(rows, From(v.cursor))|
    ensures var pending := After(rows, From(v.cursor));
            var n := Length(|pending|, done, v.total + done);
            NextBatch(rows, At(v, stream, pending, done)) == pending[done..done + n]
  {
    var pending := After(rows, From(v.cursor));
    var n := Length(|pending|, done, v.total + done);
    AfterCursorAt(rows, From(v.cursor), done);
    assert pending[done..][..n] == pending[done..done + n];
  }

  lemma SentAt(v: Values, stream: Stream, pending: Table, done: nat, n: nat)
    requires done + n <= |pending| && 0 < n
    ensures Upsert(Rows(At(v, stream, pending, done).sink), stream, pending[done..done + n])
            == Upsert(Rows(v.sink), stream, pending[..done + n])
  {
    assert pending[..done] + pending[done..done + n] == pending[..done + n];
    UpsertTogether(Rows(v.sink), stream, pending[..done], pending[done..done + n]);
    assert pending[..0] == [];
  }

  /** How far the cap lets a run go into so many pending rows. */
  function Reach(pending: nat, total: nat): nat {
    if RUN_ROW_CAP <= total then 0 else Min(pending, RUN_ROW_CAP - total)
  }

  /** A failed turn moves no cursor; the sink may have kept rows of the next batch. */
  ghost predicate StoppedAt(v: Values, stream: Stream, pending: Table, done: nat, to: Values) {
    && done <= Reach(|pending|, v.total)
    && to.verdict.Stopped?
    && to.cursor == At(v, stream, pending, done).cursor && to.total == v.total + done
    && exists extra :: ExtraRows(v, stream, pending, done, to, extra)
  }

  ghost predicate ExtraRows(v: Values, stream: Stream, pending: Table, done: nat, to: Values, extra: Table)
    requires done <= |pending|
  {
    && (forall row | row in extra :: row in pending[done..])
    && Rows(to.sink) == Upsert(Rows(At(v, stream, pending, done).sink), stream, extra)
  }

  /** The stream is left after exactly the pending rows the cap allows. */
  ghost predicate LeftAt(v: Values, stream: Stream, pending: Table, done: nat, to: Values) {
    && done == Reach(|pending|, v.total) && done <= |pending|
    && to == At(v, stream, pending, done).(verdict := to.verdict)
    && (to.verdict == Exhausted || (to.verdict == Capped && RUN_ROW_CAP <= to.total))
  }

  /** A batch shorter than full ends at the reach; an empty one is there already. */
  lemma LengthReaches(pending: nat, done: nat, total: nat)
    requires done <= Reach(pending, total)
    ensures var n := Length(pending, done, total + done);
            && done + n <= Reach(pending, total)
            && (n < BATCH_SIZE ==> done + n == Reach(pending, total))
            && (RUN_ROW_CAP <= total + done ==> done == Reach(pending, total))
  {}

  /** Exporting the batch at a position leads to the next position, or stops where it stands. */
  lemma ExportAt(stream: Stream, v: Values, pending: Table, done: nat, n: nat, answer: Answer)
    requires v.verdict == More && done + n <= |pending| && done <= Reach(|pending|, v.total)
    ensures var to := Export(stream, At(v, stream, pending, done), pending[done..done + n], answer);
            if to.verdict.Stopped? then StoppedAt(v, stream, pending, done, to) && Fails(answer, to.verdict.error)
            else to == At(v, stream, pending, done + n).(verdict := if n < BATCH_SIZE then Exhausted else More)
  {
    var at, batch := At(v, stream, pending, done), pending[done..done + n];
    var to := Export(stream, at, batch, answer);
    if 0 < n {
      var extra := if answer.DeliveryFails? then Kept(batch, answer.keeps) else batch;
      if answer.DeliveryFails? {
        KeptIsPart(batch, answer.keeps);
      }
      assert to.verdict.Stopped? ==> ExtraRows(v, stream, pending, done, to, extra);
      SentAt(v, stream, pending, done, n);
    }
  }

  lemma StopsAt(stream: Stream, v: Values, pending: Table, done: nat, error: string)
    requires done <= Reach(|pending|, v.total)
    ensures StoppedAt(v, stream, pending, done, At(v, stream, pending, done).(verdict := Stopped(error)))
  {
    var to := At(v, stream, pending, done).(verdict := Stopped(error));
    assert ExtraRows(v, stream, pending, done, to, []);
  }

  /** What one turn from a position comes to. */
  ghost predicate Leads(v: Values, stream: Stream, pending: Table, done: nat, answer: Answer, to: Values)
    requires done <= |pending|
  {
    var next := done + Length(|pending|, done, v.total + done);
    match to.verdict
    case Stopped(error) => StoppedAt(v, stream, pending, done, to) && Fails(answer, error)
    case More => to == At(v, stream, pending, next)
    case _ => LeftAt(v, stream, pending, next, to)
  }

  lemma CapLeads(stream: Stream, v: Values, pending: Table, done: nat, answer: Answer)
    requires v.verdict == More && done <= Reach(|pending|, v.total) && RUN_ROW_CAP <= v.total + done
    ensures Leads(v, stream, pending, done, answer, At(v, stream, pending, done).(verdict := Capped))
  {
    LengthReaches(|pending|, done, v.total);
  }

  lemma ExportedLeads(v: Values, stream: Stream, pending: Table, done: nat, answer: Answer, n: nat, to: Values)
    requires v.verdict == More && done <= Reach(|pending|, v.total) && n == Length(|pending|, done, v.total + done)
    requires if to.verdict.Stopped? then StoppedAt(v, stream, pending, done, to) && Fails(answer, to.verdict.error)
             else to == At(v, stream, pending, done + n).(verdict := if n < BATCH_SIZE then Exhausted else More)
    ensures Leads(v, stream, pending, done, answer, to)
  {
    LengthReaches(|pending|, done, v.total);
  }

  lemma ExportLeads(stream: Stream, v: Values, pending: Table, done: nat, answer: Answer)
    requires v.verdict == More && done <= Reach(|pending|, v.total)
    ensures var batch := pending[done..done + Length(|pending|, done, v.total + done)];
            Leads(v, stream, pending, done, answer, Export(stream, At(v, stream, pending, done), batch, answer))
  {
    var n := Length(|pending|, done, v.total + done);
    ExportAt(stream, v, pending, done, n, answer);
    ExportedLeads(v, stream, pending, done, answer, n,
        Export(stream, At(v, stream, pending, done), pending[done..done + n], answer));
  }

  /** A turn from some values, given the batch it fetches. */
  lemma TurnIs(rows: Table, stream: Stream, at: Values, answer: Answer)
    ensures Turn(rows, stream, at, answer)
            == (if answer.ReadFails? || (answer.FetchFails? && at.total < RUN_ROW_CAP)
                then at.(verdict := Stopped(answer.error))
                else if RUN_ROW_CAP <= at.total then at.(verdict := Capped)
                else Export(stream, at, NextBatch(rows, at), answer))
  {}

  lemma BatchTurnLeads(rows: Table, stream: Stream, v: Values, pending: Table, done: nat, answer: Answer, at: Values)
    requires Ascending(rows) && v.verdict == More && done <= Reach(|pending|, v.total)
    requires pending == After(rows, From(v.cursor)) && at == At(v, stream, pending, done)
    ensures Leads(v, stream, pending, done, answer, Export(stream, at, NextBatch(rows, at), answer))
  {
    BatchAt(rows, v, stream, done);
    assert NextBatch(rows, at) == pending[done..done + Length(|pending|, done, v.total + done)];
    ExportLeads(stream, v, pending, done, answer);
  }

  lemma TurnLeads(rows: Table, stream: Stream, v: Values, done: nat, answer: Answer, at: Values)
    requires Ascending(rows) && v.verdict == More && done <= Reach(|After(rows, From(v.cursor))|, v.total)
    requires at == At(v, stream, After(rows, From(v.cursor)), done)
    ensures Leads(v, stream, After(rows, From(v.cursor)), done, answer, Turn(rows, stream, at, answer))
  {
    assert at.total == v.total + done;
    TurnIs(rows, stream, at, answer);
    if answer.ReadFails? || (answer.FetchFails? && at.total < RUN_ROW_CAP) {
      StopsAt(stream, v, After(rows, From(v.cursor)), done, answer.error);
    } else if RUN_ROW_CAP <= at.total {
      CapLeads(stream, v, After(rows, From(v.cursor)), done, answer);
    } else {
      BatchTurnLeads(rows, stream, v, After(rows, From(v.cursor)), done, answer, at);
    }
  }

  /** From each position up to `limit` a turn stops, leaves, or goes on to the next position. */
  ghost predicate Leading(turn: Step, at: nat -> Values, next: nat -> nat, stops: (nat, Values) -> bool,
                          leaves: (nat, Values) -> bool, limit: nat)
  {
    forall k: nat, a: Answer | k <= limit :: LeadsOn(turn(at(k), a), a, k, at, next, stops, leaves, limit)
  }

  ghost predicate LeadsOn(to: Values, a: Answer, k: nat, at: nat -> Values, next: nat -> nat,
      stops: (nat, Values) -> bool,
                          leaves: (nat, Values) -> bool, limit: nat)
  {
    match to.verdict
    case Stopped(error) => stops(k, to) && Fails(a, error)
    case More => next(k) <= limit && to == at(next(k))
    case _ => leaves(next(k), to)
  }

  /** The induction over the turns, apart from what a turn does. */
  lemma {:induction false} IterateFrom(turn: Step, at: nat -> Values, next: nat -> nat, stops: (nat, Values) -> bool,
                                       leaves: (nat, Values) -> bool, limit: nat, done: nat, answers: Answers, i: nat)
      returns (count: nat)
    requires Spends(turn) && done <= limit && at(done).verdict == More
    requires Leading(turn, at, next, stops, leaves, limit)
    ensures var (to, j) := Iterate(turn, at(done), answers, i);
            if to.verdict.Stopped? then stops(count, to) && i < j && Fails(answers(j - 1), to.verdict.error)
            else to.verdict != More && leaves(count, to)
    decreases Budget(at(done))
  {
    var to := turn(at(done), answers(i));
    assert LeadsOn(to, answers(i), done, at, next, stops, leaves, limit);
    if to.verdict == More {
      count := IterateFrom(turn, at, next, stops, leaves, limit, next(done), answers, i + 1);
    } else {
      count := if to.verdict.Stopped? then done else next(done);
      assert Iterate(turn, to, answers, i + 1) == (to, i + 1);
    }
  }

  function Places(v: Values, stream: Stream, pending: Table): nat -> Values {
    (k: nat) => if k <= |pending| then At(v, stream, pending, k) else v
  }

  function Next(pending: nat, total: nat, k: nat): nat {
    if k <= pending then k + Length(pending, k, total + k) else k
  }

  function Nexts(pending: nat, total: nat): nat -> nat {
    (k: nat) => Next(pending, total, k)
  }

  ghost function Stops(v: Values, stream: Stream, pending: Table): (nat, Values) -> bool {
    (k: nat, to: Values) => StoppedAt(v, stream, pending, k, to)
  }

  ghost function Leaves(v: Values, stream: Stream, pending: Table): (nat, Values) -> bool {
    (k: nat, to: Values) => LeftAt(v, stream, pending, k, to)
  }

  lemma LeadsIsLeadsOn(v: Values, stream: Stream, pending: Table, k: nat, a: Answer, to: Values)
    requires k <= Reach(|pending|, v.total) && Leads(v, stream, pending, k, a, to)
    ensures LeadsOn(to, a, k, Places(v, stream, pending), Nexts(|pending|, v.total), Stops(v, stream, pending),
                    Leaves(v, stream, pending), Reach(|pending|, v.total))
  {
    LengthReaches(|pending|, k, v.total);
  }

  lemma StreamLeads(rows: Table, stream: Stream, v: Values, pending: Table)
    requires Ascending(rows) && v.verdict == More && pending == After(rows, From(v.cursor))
    ensures Leading(TurnOf(rows, stream), Places(v, stream, pending), Nexts(|pending|, v.total),
            Stops(v, stream, pending),
                    Leaves(v, stream, pending), Reach(|pending|, v.total))
  {
    forall k: nat, a: Answer | k <= Reach(|pending|, v.total)
      ensures LeadsOn(TurnOf(rows, stream)(Places(v, stream, pending)(k), a), a, k, Places(v, stream, pending),
                      Nexts(|pending|, v.total), Stops(v, stream, pending), Leaves(v, stream, pending),
                          Reach(|pending|, v.total))
    {
      var at := Places(v, stream, pending)(k);
      TurnLeads(rows, stream, v, k, a, at);
      LeadsIsLeadsOn(v, stream, pending, k, a, TurnOf(rows, stream)(at, a));
    }
  }

  /** What the turns over a stream come to: the rows exported, and how the stream was left. */
  ghost predicate Outcome(rows: Table, stream: Stream, v: Values, to: Values, done: nat) {
    var pending := After(rows, From(v.cursor));
    if to.verdict.Stopped? then StoppedAt(v, stream, pending, done, to) else LeftAt(v, stream, pending, done, to)
  }

  lemma FirstPlace(v: Values, stream: Stream, pending: Table)
    ensures Places(v, stream, pending)(0) == v
  {}

  lemma OutcomeIs(rows: Table, stream: Stream, v: Values, pending: Table, to: Values, count: nat)
    requires pending == After(rows, From(v.cursor))
    requires if to.verdict.Stopped? then Stops(v, stream, pending)(count, to) else Leaves(v, stream, pending)(count, to)
    ensures Outcome(rows, stream, v, to, count)
  {}

  lemma StreamIterates(rows: Table, stream: Stream, v: Values, pending: Table, at: nat -> Values, answers: Answers,
      i: nat)
      returns (count: nat)
    requires Spends(TurnOf(rows, stream)) && at(0) == v && v.verdict == More
    requires Leading(TurnOf(rows, stream), at, Nexts(|pending|, v.total), Stops(v, stream, pending),
             Leaves(v, stream, pending),
                     Reach(|pending|, v.total))
    ensures var (to, j) := Turns(rows, stream, v, answers, i);
            && (to.verdict.Stopped? ==> i < j && Fails(answers(j - 1), to.verdict.error))
            && (if to.verdict.Stopped? then Stops(v, stream, pending)(count, to)
               else Leaves(v, stream, pending)(count, to))
  {
    count := IterateFrom(TurnOf(rows, stream), at, Nexts(|pending|, v.total), Stops(v, stream, pending),
                         Leaves(v, stream, pending), Reach(|pending|, v.total), 0, answers, i);
  }

  /**
   * One stream of a run exports its pending rows in order until they or the cap give out or
   * a call fails: the cursor stands on the last of them, the sink has them all, and after a
   * failure at most rows still pending besides.
   */
  lemma StreamExports(rows: Table, stream: Stream, v: Values, answers: Answers, i: nat) returns (count: nat)
    requires Ascending(rows) && v.verdict == More
    ensures var (to, j) := Turns(rows, stream, v, answers, i);
            && Outcome(rows, stream, v, to, count)
            && (to.verdict.Stopped? ==> i < j && Fails(answers(j - 1), to.verdict.error))
  {
    var pending := After(rows, From(v.cursor));
    TurnsSpend(rows, stream);
    StreamLeads(rows, stream, v, pending);
    FirstPlace(v, stream, pending);
    count := StreamIterates(rows, stream, v, pending, Places(v, stream, pending), answers, i);
    OutcomeIs(rows, stream, v, pending, Turns(rows, stream, v, answers, i).0, count);
  }

  // ------------------------------------------------------------------ both streams

  /** Interactions first; reports only when the interactions were exhausted. */
  ghost function RunTurns(interactions: Table, reports: Table, v: Values, cursor: Option<Key>,
      answers: Answers): (Values, Values) {
    var (first, i) := Turns(interactions, Interactions, v, answers, 0);
    var start := Values(cursor, first.sink, first.total, More);
    if first.verdict == Exhausted then (first, Turns(reports, FeedbackReports, start, answers, i).0)
    else (first, start.(verdict := first.verdict))
  }

  /** The sink after the first `a` interactions and the first `b` reports. */
  function SinkAfter(sink: Sink, interactions: Table, reports: Table): Sink {
    Upsert(Upsert(sink, Interactions, interactions), FeedbackReports, reports)
  }

  /** Besides, a failed call may leave pending rows of one stream in the sink. */
  ghost predicate LeftOver(sink: Sink, to: Sink, stream: Stream, pending: Table, extra: Table) {
    (forall row | row in extra :: row in pending) && to == Upsert(sink, stream, extra)
  }

  ghost predicate LeavesOver(sink: Sink, to: Sink, stream: Stream, pending: Table) {
    exists extra :: LeftOver(sink, to, stream, pending, extra)
  }

  /** What a run comes to: `a` interactions and `b` reports, all that the cap allows unless a call failed. */
  ghost predicate RunOutcome(first: Table, second: Table, v: Values, cursor: Option<Key>, to: Values, last: Values,
      a: nat, b: nat) {
    && a <= |first| && b <= |second| && (b > 0 ==> a == |first|)
    && From(to.cursor) == CursorAt(first, From(v.cursor), a)
    && From(last.cursor) == CursorAt(second, From(cursor), b)
    && last.total == a + b
    && (var sink := SinkAfter(Rows(v.sink), first[..a], second[..b]);
        match last.verdict
        case More => false
        case Stopped(_) =>
          || LeavesOver(sink, Rows(last.sink), Interactions, first[a..])
          || LeavesOver(sink, Rows(last.sink), FeedbackReports, second[b..])
        case _ => a == Reach(|first|, 0) && b == Reach(|second|, a) && Rows(last.sink) == sink)
  }

  lemma StoppedInFirst(v: Values, first: Table, second: Table, cursor: Option<Key>, a: nat, to: Values)
    requires v.total == 0 && StoppedAt(v, Interactions, first, a, to)
    ensures RunOutcome(first, second, v, cursor, to, Values(cursor, to.sink, to.total, to.verdict), a, 0)
  {
    var extra :| ExtraRows(v, Interactions, first, a, to, extra);
    assert first[..0] == [] && second[..0] == [];
    var sink := SinkAfter(Rows(v.sink), first[..a], second[..0]);
    assert LeftOver(sink, Rows(to.sink), Interactions, first[a..], extra);
  }

  lemma CappedInFirst(v: Values, first: Table, second: Table, cursor: Option<Key>, a: nat, to: Values)
    requires v.total == 0 && LeftAt(v, Interactions, first, a, to) && to.verdict == Capped
    ensures RunOutcome(first, second, v, cursor, to, Values(cursor, to.sink, to.total, to.verdict), a, 0)
  {
    assert first[..0] == [] && second[..0] == [];
  }

  lemma LeftInSecond(v: Values, first: Table, second: Table, cursor: Option<Key>, a: nat, to: Values, b: nat,
      last: Values)
    requires v.total == 0 && v.verdict == More && LeftAt(v, Interactions, first, a, to)
    requires LeftAt(Values(cursor, to.sink, to.total, More), FeedbackReports, second, b, last)
    ensures RunOutcome(first, second, v, cursor, to, last, a, b)
  {
    assert first[..0] == [] && second[..0] == [];
  }

  lemma StoppedInSecond(v: Values, first: Table, second: Table, cursor: Option<Key>, a: nat, to: Values, b: nat,
      last: Values)
    requires v.total == 0 && LeftAt(v, Interactions, first, a, to)
    requires StoppedAt(Values(cursor, to.sink, to.total, More), FeedbackReports, second, b, last)
    ensures RunOutcome(first, second, v, cursor, to, last, a, b)
  {
    var start := Values(cursor, to.sink, to.total, More);
    var extra :| ExtraRows(start, FeedbackReports, second, b, last, extra);
    assert first[..0] == [] && second[..0] == [];
    var sink := SinkAfter(Rows(v.sink), first[..a], second[..b]);
    assert LeftOver(sink, Rows(last.sink), FeedbackReports, second[b..], extra);
  }

  /** A whole run exports what the cap allows of the interactions, then of the reports, or stops at a failed call. */
  lemma RunExports(interactions: Table, reports: Table, v: Values, cursor: Option<Key>, answers: Answers)
      returns (a: nat, b: nat)
    requires Ascending(interactions) && Ascending(reports) && v.verdict == More && v.total == 0
    ensures var (to, last) := RunTurns(interactions, reports, v, cursor, answers);
            && RunOutcome(After(interactions, From(v.cursor)), After(reports, From(cursor)), v, cursor, to, last, a, b)
            && (last.verdict.Stopped? ==> exists i :: Fails(answers(i), last.verdict.error))
  {
    var first, second := After(interactions, From(v.cursor)), After(reports, From(cursor));
    a := StreamExports(interactions, Interactions, v, answers, 0);
    b := 0;
    var (to, i) := Turns(interactions, Interactions, v, answers, 0);
    if to.verdict.Stopped? {
      StoppedInFirst(v, first, second, cursor, a, to);
    } else if to.verdict == Capped {
      CappedInFirst(v, first, second, cursor, a, to);
    } else {
      var start := Values(cursor, to.sink, to.total, More);
      b := StreamExports(reports, FeedbackReports, start, answers, i);
      var (last, j) := Turns(reports, FeedbackReports, start, answers, i);
      if last.verdict.Stopped? {
        StoppedInSecond(v, first, second, cursor, a, to, b, last);
      } else {
        LeftInSecond(v, first, second, cursor, a, to, b, last);
      }
    }
  }
}
