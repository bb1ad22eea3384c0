/** How the loop over one stream ends: how many full batches it took, and what its last turn did. */
module ExportTurnRecords {
  import opened Basics
  import opened ExportTable
  import opened DestinationStore
  import opened ExportProgress
  import opened ExportTurns

  /** At most 500 rows a turn, and 10,000 a run. */
  function BatchOf(pending: Table, done: nat, total: nat): Table
    requires done <= |pending|
  {
    if 10000 <= total then [] else pending[done..done + Min(|pending| - done, Min(500, 10000 - total))]
  }

  /** The sink when the first `done` pending rows and then `more` have reached it. */
  function SinkWith(v: Values, stream: Stream, pending: Table, done: nat, more: Table): Sink
    requires done <= |pending|
  {
    Upsert(Upsert(Rows(v.sink), stream, pending[..done]), stream, more)
  }

  ghost predicate Picks(kept: Table, batch: Table, keeps: Row -> bool) {
    forall row :: row in kept <==> row in batch && keeps(row)
  }

  ghost predicate SinkKept(v: Values, stream: Stream, pending: Table, done: nat, batch: Table, keeps: Row -> bool,
      to: Values)
    requires done <= |pending|
  {
    exists kept :: Picks(kept, batch, keeps) && Rows(to.sink) == SinkWith(v, stream, pending, done, kept)
  }

  /** A failed call: its error is the loop's, the cursor stays, and the sink has what was delivered. */
  ghost predicate FailedCall(v: Values, stream: Stream, pending: Table, done: nat, answer: Answer, to: Values)
    requires done <= |pending|
  {
    var batch := BatchOf(pending, done, v.total + done);
    match answer
    case Fine => false
    case ReadFails(e) =>
      to.verdict == Stopped(e) && Rows(to.sink) == SinkWith(v, stream, pending, done, [])
    case FetchFails(e) =>
      to.verdict == Stopped(e) && v.total + done < 10000 && Rows(to.sink) == SinkWith(v, stream, pending, done, [])
    case DeliveryFails(keeps, e) =>
      to.verdict == Stopped(e) && batch != [] && SinkKept(v, stream, pending, done, batch, keeps, to)
    case AdvanceFails(e) =>
      to.verdict == Stopped(e) && batch != [] && Rows(to.sink) == SinkWith(v, stream, pending, done, batch)
  }

  /** The cursor stands on the last of the first `done` pending rows. */
  predicate StandsAt(v: Values, pending: Table, done: nat, to: Values)
    requires done <= |pending|
  {
    to.total == v.total + done && to.cursor == if done == 0 then v.cursor else Some(pending[done - 1].key)
  }

  /** What the last turn, after `done` rows, answered so, comes to. */
  ghost predicate LastTurn(v: Values, stream: Stream, pending: Table, done: nat, answer: Answer, to: Values)
    requires done <= |pending|
  {
    var batch := BatchOf(pending, done, v.total + done);
    match to.verdict
    case More => false
    case Stopped(_) => FailedCall(v, stream, pending, done, answer, to) && StandsAt(v, pending, done, to)
    case Capped =>
      && !answer.ReadFails? && 10000 <= v.total + done && StandsAt(v, pending, done, to)
      && Rows(to.sink) == SinkWith(v, stream, pending, done, [])
    case Exhausted =>
      && !answer.ReadFails? && !answer.FetchFails? && v.total + done < 10000
      && (batch == [] || answer.Fine?) && |batch| < 500
      && done + |batch| <= |pending| && StandsAt(v, pending, done + |batch|, to)
      && Rows(to.sink) == SinkWith(v, stream, pending, done, batch)
  }

  /** A turn that goes on took exactly 500 rows. */
  ghost predicate TurnTells(v: Values, stream: Stream, pending: Table, done: nat, answer: Answer, to: Values)
    requires done <= |pending|
  {
    if to.verdict.More? then
      answer.Fine? && done + 500 <= Reach(|pending|, v.total) && to == At(v, stream, pending, done + 500)
    else LastTurn(v, stream, pending, done, answer, to)
  }

  lemma SinkAt(v: Values, stream: Stream, pending: Table, done: nat)
    requires done <= |pending|
    ensures Rows(At(v, stream, pending, done).sink) == SinkWith(v, stream, pending, done, [])
  {}

  lemma DeliveryTells(stream: Stream, v: Values, pending: Table, done: nat, keeps: Row -> bool, error: string)
    requires v.verdict == More && done <= |pending| && BatchOf(pending, done, v.total + done) != []
    ensures var batch, at, answer :=
              BatchOf(pending, done, v.total + done), At(v, stream, pending, done), DeliveryFails(keeps, error);
            FailedCall(v, stream, pending, done, answer, Export(stream, at, batch, answer))
  {
    var batch := BatchOf(pending, done, v.total + done);
    SinkAt(v, stream, pending, done);
    KeptPicks(batch, keeps);
    assert Picks(Kept(batch, keeps), batch, keeps);
  }

  lemma AdvanceFailureTells(stream: Stream, v: Values, pending: Table, done: nat, error: string)
    requires v.verdict == More && done <= |pending| && BatchOf(pending, done, v.total + done) != []
    ensures var batch, at, answer := BatchOf(pending, done, v.total + done), At(v, stream, pending, done),
                AdvanceFails(error);
            FailedCall(v, stream, pending, done, answer, Export(stream, at, batch, answer))
  {
    SinkAt(v, stream, pending, done);
  }

  lemma FineTells(stream: Stream, v: Values, pending: Table, done: nat)
    requires v.verdict == More && done <= |pending| && BatchOf(pending, done, v.total + done) != []
    ensures var batch, at := BatchOf(pending, done, v.total + done), At(v, stream, pending, done);
            var to := Export(stream, at, batch, Fine);
            && to == At(v, stream, pending, done + |batch|).(verdict := if |batch| < 500 then Exhausted else More)
            && Rows(to.sink) == SinkWith(v, stream, pending, done, batch)
  {
    var batch := BatchOf(pending, done, v.total + done);
    SinkAt(v, stream, pending, done);
    SentAt(v, stream, pending, done, |batch|);
  }

  lemma EmptyTells(stream: Stream, v: Values, pending: Table, done: nat, answer: Answer)
    requires v.verdict == More && done <= Reach(|pending|, v.total) && v.total + done < 10000
    requires !answer.ReadFails? && !answer.FetchFails? && BatchOf(pending, done, v.total + done) == []
    ensures TurnTells(v, stream, pending, done, answer, Export(stream, At(v, stream, pending, done), [], answer))
  {
    SinkAt(v, stream, pending, done);
  }

  lemma FullTells(stream: Stream, v: Values, pending: Table, done: nat)
    requires v.verdict == More && done <= Reach(|pending|, v.total) && v.total + done < 10000
    requires BatchOf(pending, done, v.total + done) != []
    ensures var batch := BatchOf(pending, done, v.total + done);
            TurnTells(v, stream, pending, done, Fine, Export(stream, At(v, stream, pending, done), batch, Fine))
  {
    FineTells(stream, v, pending, done);
  }

  lemma ExportTells(stream: Stream, v: Values, pending: Table, done: nat, answer: Answer)
    requires v.verdict == More && done <= Reach(|pending|, v.total) && v.total + done < 10000
    requires !answer.ReadFails? && !answer.FetchFails?
    ensures var batch := BatchOf(pending, done, v.total + done);
            TurnTells(v, stream, pending, done, answer, Export(stream, At(v, stream, pending, done), batch, answer))
  {
    if BatchOf(pending, done, v.total + done) == [] {
      EmptyTells(stream, v, pending, done, answer);
    } else {
      match answer
      case DeliveryFails(keeps, error) => DeliveryTells(stream, v, pending, done, keeps, error);
      case AdvanceFails(error) => AdvanceFailureTells(stream, v, pending, done, error);
      case Fine => FullTells(stream, v, pending, done);
    }
  }

  lemma {:induction false} KeptPicks(batch: Table, keeps: Row -> bool)
    ensures Picks(Kept(batch, keeps), batch, keeps)
  {
    if batch != [] {
      KeptPicks(batch[1..], keeps);
    }
  }

  lemma CutShortTells(stream: Stream, v: Values, pending: Table, done: nat, answer: Answer, verdict: Verdict)
    requires done <= Reach(|pending|, v.total)
    requires if answer.ReadFails? || (answer.FetchFails? && v.total + done < 10000)
             then verdict == Stopped(answer.error)
             else 10000 <= v.total + done && verdict == Capped
    ensures TurnTells(v, stream, pending, done, answer, At(v, stream, pending, done).(verdict := verdict))
  {
    SinkAt(v, stream, pending, done);
  }

  lemma OneTurnTells(rows: Table, stream: Stream, v: Values, pending: Table, done: nat, answer: Answer, at: Values)
    requires Ascending(rows) && v.verdict == More && pending == After(rows, From(v.cursor))
    requires done <= Reach(|pending|, v.total) && at == At(v, stream, pending, done)
    ensures TurnTells(v, stream, pending, done, answer, Turn(rows, stream, at, answer))
  {
    TurnIs(rows, stream, at, answer);
    assert at.total == v.total + done;
    if !answer.ReadFails? && !answer.FetchFails? && v.total + done < 10000 {
      BatchAt(rows, v, stream, done);
      assert NextBatch(rows, at) == BatchOf(pending, done, v.total + done);
      ExportTells(stream, v, pending, done, answer);
    } else {
      CutShortTells(stream, v, pending, done, answer, Turn(rows, stream, at, answer).verdict);
    }
  }

  // ------------------------------------------------------------------ the loop

  ghost predicate GoesOn(to: Values, a: Answer, k: nat, at: nat -> Values, last: (nat, Answer, Values) -> bool,
      limit: nat)
  {
    if to.verdict.More? then a.Fine? && k + 500 <= limit && to == at(k + 500) else last(k, a, to)
  }

  ghost predicate Goes(turn: ExportTurns.Step, at: nat -> Values, last: (nat, Answer, Values) -> bool, limit: nat) {
    forall k: nat, a: Answer | k <= limit :: GoesOn(turn(at(k), a), a, k, at, last, limit)
  }

  /** Full turns from answer `i` to the one before `j`, and how the last one ends. */
  ghost predicate Counted(last: (nat, Answer, Values) -> bool, done: nat, answers: Answers, i: nat, j: nat,
      to: Values)
  {
    && i < j && (forall k | i <= k < j - 1 :: answers(k).Fine?)
    && last(done + 500 * (j - 1 - i), answers(j - 1), to)
  }

  lemma OneMoreTurn(last: (nat, Answer, Values) -> bool, done: nat, answers: Answers, i: nat, j: nat, to: Values)
    requires answers(i).Fine? && Counted(last, done + 500, answers, i + 1, j, to)
    ensures Counted(last, done, answers, i, j, to)
  {
    assert done + 500 + 500 * (j - 1 - (i + 1)) == done + 500 * (j - 1 - i);
  }

  /** The induction over the turns, apart from what a turn does. */
  lemma {:induction false} IterateCounts(turn: ExportTurns.Step, at: nat -> Values,
      last: (nat, Answer, Values) -> bool, limit: nat, done: nat, answers: Answers, i: nat)
    requires Spends(turn) && Goes(turn, at, last, limit) && done <= limit && at(done).verdict == More
    ensures var (to, j) := Iterate(turn, at(done), answers, i);
            Counted(last, done, answers, i, j, to)
    decreases limit - done
  {
    var to := turn(at(done), answers(i));
    assert GoesOn(to, answers(i), done, at, last, limit);
    if to.verdict == More {
      IterateCounts(turn, at, last, limit, done + 500, answers, i + 1);
      var (end, j) := Iterate(turn, to, answers, i + 1);
      OneMoreTurn(last, done, answers, i, j, end);
    } else {
      assert Iterate(turn, to, answers, i + 1) == (to, i + 1);
    }
  }

  ghost function Lasts(v: Values, stream: Stream, pending: Table): (nat, Answer, Values) -> bool {
    (k: nat, a: Answer, to: Values) => k <= |pending| && LastTurn(v, stream, pending, k, a, to)
  }

  lemma StreamGoes(rows: Table, stream: Stream, v: Values, pending: Table)
    requires Ascending(rows) && v.verdict == More && pending == After(rows, From(v.cursor))
    ensures Goes(TurnOf(rows, stream), Places(v, stream, pending), Lasts(v, stream, pending),
                 Reach(|pending|, v.total))
  {
    forall k: nat, a: Answer | k <= Reach(|pending|, v.total)
      ensures GoesOn(TurnOf(rows, stream)(Places(v, stream, pending)(k), a), a, k, Places(v, stream, pending),
                     Lasts(v, stream, pending), Reach(|pending|, v.total))
    {
      OneTurnTells(rows, stream, v, pending, k, a, Places(v, stream, pending)(k));
    }
  }

  lemma StreamCounts(rows: Table, stream: Stream, v: Values, pending: Table, at: nat -> Values, answers: Answers,
      i: nat)
    requires Spends(TurnOf(rows, stream)) && at(0) == v && v.verdict == More
    requires Goes(TurnOf(rows, stream), at, Lasts(v, stream, pending), Reach(|pending|, v.total))
    ensures var (to, j) := Turns(rows, stream, v, answers, i);
            Counted(Lasts(v, stream, pending), 0, answers, i, j, to)
  {
    IterateCounts(TurnOf(rows, stream), at, Lasts(v, stream, pending), Reach(|pending|, v.total), 0, answers, i);
  }

  lemma CountedTells(v: Values, stream: Stream, pending: Table, answers: Answers, i: nat, j: nat, to: Values)
    requires Counted(Lasts(v, stream, pending), 0, answers, i, j, to)
    ensures TurnsTell(v, stream, pending, answers, i, j, to)
  {
    assert 0 + 500 * (j - 1 - i) == 500 * (j - 1 - i);
    assert Lasts(v, stream, pending)(500 * (j - 1 - i), answers(j - 1), to);
  }

  /** Full turns, all answered, and what the last one comes to. */
  ghost predicate TurnsTell(v: Values, stream: Stream, pending: Table, answers: Answers, i: nat, j: nat, to: Values) {
    && i < j && 500 * (j - 1 - i) <= |pending|
    && (forall k | i <= k < j - 1 :: answers(k).Fine?)
    && LastTurn(v, stream, pending, 500 * (j - 1 - i), answers(j - 1), to)
  }

  /**
   * Every turn but the last exports exactly 500 rows. The last one fails with its call's own
   * error, cursor unmoved, the sink having all of the batch if only the advance failed and the
   * part the receiver kept if the delivery failed; or finds the cap reached; or takes fewer than
   * 500 rows, being all that is pending or all that the cap leaves.
   */
  lemma StreamTurnsTell(rows: Table, stream: Stream, v: Values, answers: Answers, i: nat)
    requires Ascending(rows) && v.verdict == More
    ensures var (to, j) := Turns(rows, stream, v, answers, i);
            TurnsTell(v, stream, After(rows, From(v.cursor)), answers, i, j, to)
  {
    var pending := After(rows, From(v.cursor));
    TurnsSpend(rows, stream);
    StreamGoes(rows, stream, v, pending);
    FirstPlace(v, stream, pending);
    StreamCounts(rows, stream, v, pending, Places(v, stream, pending), answers, i);
    var (to, j) := Turns(rows, stream, v, answers, i);
    CountedTells(v, stream, pending, answers, i, j, to);
  }
}
