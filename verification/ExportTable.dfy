/**
 * Export sources. A source table is read through its `(timestamp, id)` index, so
 * it is modelled as the sequence of its rows in index order.
 */
module ExportTable {

  /** The keyset cursor position of a row: SQL compares `(timestamp, id)` as a pair. */
  datatype Key = Key(at: int, id: nat)

  /** The cursor of a stream that has never been exported: the epoch and the nil id. */
  const NIL_KEY := Key(0, 0)

  predicate Less(a: Key, b: Key) {
    a.at < b.at || (a.at == b.at && a.id < b.id)
  }

  predicate AtMost(a: Key, b: Key) {
    a == b || Less(a, b)
  }

  /** One version of a source row; an update gives the row a new key and a new record. */
  datatype Row = Row(key: Key, record: string)

  type Table = seq<Row>

  ghost predicate Ascending(table: Table) {
    forall i, j | 0 <= i < j < |table| :: Less(table[i].key, table[j].key)
  }

  ghost predicate DistinctIds(table: Table) {
    forall i, j | 0 <= i < j < |table| :: table[i].key.id != table[j].key.id
  }

  /** Nothing at or below the nil cursor, nothing above the largest committed key. */
  ghost predicate Bounded(table: Table, high: Key) {
    forall row | row in table :: Less(NIL_KEY, row.key) && AtMost(row.key, high)
  }

  /** Index order with one row for each id. */
  ghost predicate WellFormed(table: Table, high: Key) {
    Ascending(table) && DistinctIds(table) && Bounded(table, high)
  }

  /** `WHERE (timestamp, id) > cursor`. */
  function After(table: Table, cursor: Key): Table {
    if table == [] then [] else
    (if Less(cursor, table[0].key) then [table[0]] else []) + After(table[1..], cursor)
  }

  /** `ORDER BY timestamp, id LIMIT limit` over the rows after the cursor. */
  function Fetch(table: Table, cursor: Key, limit: nat): Table {
    var after := After(table, cursor);
    if |after| <= limit then after else after[..limit]
  }

  /** Removing a row by id. */
  function Without(table: Table, id: nat): Table {
    if table == [] then [] else
    (if table[0].key.id == id then [] else [table[0]]) + Without(table[1..], id)
  }

  lemma {:induction false} AfterKeepsAll(table: Table, cursor: Key)
    requires forall row | row in table :: Less(cursor, row.key)
    ensures After(table, cursor) == table
  {
    if table != [] {
      AfterKeepsAll(table[1..], cursor);
    }
  }

  lemma AscendingTail(table: Table)
    requires Ascending(table) && table != []
    ensures Ascending(table[1..])
    ensures forall row | row in table[1..] :: Less(table[0].key, row.key)
  {
    var rest := table[1..];
    forall i | 0 <= i < |rest| ensures Less(table[0].key, rest[i].key) {
      assert rest[i] == table[i + 1];
    }
  }

  /** In index order the rows after a cursor are a suffix, and everything before it is at or below. */
  lemma {:induction false} AfterIsSuffix(table: Table, cursor: Key)
    requires Ascending(table)
    ensures |After(table, cursor)| <= |table|
    ensures After(table, cursor) == table[|table| - |After(table, cursor)|..]
    ensures forall i | 0 <= i < |table| :: Less(cursor, table[i].key) <==> |table| - |After(table, cursor)| <= i
  {
    if table != [] {
      var rest := table[1..];
      AscendingTail(table);
      if Less(cursor, table[0].key) {
        forall row | row in table ensures Less(cursor, row.key) {
          if row != table[0] { assert row in rest; }
        }
        AfterKeepsAll(table, cursor);
      } else {
        AfterIsSuffix(rest, cursor);
        var k := |rest| - |After(rest, cursor)|;
        assert After(table, cursor) == rest[k..] == table[k + 1..];
        forall i | 0 <= i < |table| ensures Less(cursor, table[i].key) <==> k + 1 <= i {
          if i > 0 { assert table[i] == rest[i - 1]; }
        }
      }
    }
  }

  /** A fetch reads the consecutive rows `from..to`. */
  lemma FetchIsSlice(table: Table, cursor: Key, limit: nat) returns (from: nat, to: nat)
    requires Ascending(table)
    ensures from <= to <= |table| && Fetch(table, cursor, limit) == table[from..to]
    ensures After(table, cursor) == table[from..]
    ensures forall i | 0 <= i < |table| :: Less(cursor, table[i].key) <==> from <= i
    ensures to - from <= limit && (to - from < limit ==> to == |table|)
  {
    AfterIsSuffix(table, cursor);
    from := |table| - |After(table, cursor)|;
    to := from + |Fetch(table, cursor, limit)|;
  }

  /** One export read returns an ascending run of at most `limit` rows after the cursor. */
  lemma FetchIsNextRun(table: Table, cursor: Key, limit: nat)
    requires Ascending(table)
    ensures var batch := Fetch(table, cursor, limit);
            && |batch| <= limit && Ascending(batch)
            && (forall row | row in batch ::
               row in table && Less(cursor, row.key) && AtMost(row.key, batch[|batch| - 1].key))
  {
    var from, to := FetchIsSlice(table, cursor, limit);
    SliceIsAscending(table, from, to);
    forall row | row in table[from..to] ensures row in table && Less(cursor, row.key) {
      var i :| from <= i < to && table[i] == row;
    }
  }

  lemma SliceIsAscending(table: Table, from: nat, to: nat)
    requires Ascending(table) && from <= to <= |table|
    ensures var slice := table[from..to];
            Ascending(slice) && forall row | row in slice :: AtMost(row.key, slice[|slice| - 1].key)
  {
    var slice := table[from..to];
    forall i, j | 0 <= i < j < |slice| ensures Less(slice[i].key, slice[j].key) {
      assert slice[i] == table[from + i] && slice[j] == table[from + j];
    }
  }

  /** It skips no pending row: what it leaves out lies behind its last row, after a full batch. */
  lemma FetchSkipsNothing(table: Table, cursor: Key, limit: nat, row: Row)
    requires Ascending(table)
    requires row in table && Less(cursor, row.key)
    ensures var batch := Fetch(table, cursor, limit);
            row in batch || (|batch| == limit && (batch != [] ==> Less(batch[|batch| - 1].key, row.key)))
  {
    var batch := Fetch(table, cursor, limit);
    var from, to := FetchIsSlice(table, cursor, limit);
    var i :| 0 <= i < |table| && table[i] == row;
    if i < to {
      assert batch[i - from] == row;
    } else if batch != [] {
      assert batch[|batch| - 1] == table[to - 1];
    }
  }

  /** The rows after a row's own key are the rows behind it. */
  lemma AfterOwnKey(table: Table, i: nat)
    requires Ascending(table)
    requires i < |table|
    ensures After(table, table[i].key) == table[i + 1..]
  {
    AfterIsSuffix(table, table[i].key);
    var p := |table| - |After(table, table[i].key)|;
    assert i < p;
    if i + 1 < |table| {
      assert Less(table[i].key, table[i + 1].key);
    }
    assert p == i + 1;
  }

  lemma {:induction false} WithoutKeeps(table: Table, id: nat)
    ensures forall row :: row in Without(table, id) <==> row in table && row.key.id != id
  {
    if table != [] {
      WithoutKeeps(table[1..], id);
    }
  }

  lemma {:induction false} WithoutStaysOrdered(table: Table, id: nat)
    requires Ascending(table) && DistinctIds(table)
    ensures Ascending(Without(table, id)) && DistinctIds(Without(table, id))
  {
    if table != [] {
      WithoutStaysOrdered(table[1..], id);
      WithoutKeeps(table[1..], id);
      var rest := Without(table[1..], id);
      forall i | 0 <= i < |rest|
        ensures Less(table[0].key, rest[i].key) && table[0].key.id != rest[i].key.id
      {
        assert rest[i] in table[1..];
      }
    }
  }

  lemma AppendStaysWellFormed(table: Table, row: Row, high: Key)
    requires WellFormed(table, high) && AtMost(NIL_KEY, high) && Less(high, row.key)
    requires forall r | r in table :: r.key.id != row.key.id
    ensures WellFormed(table + [row], row.key)
  {
    var next := table + [row];
    forall i | 0 <= i < |table| ensures Less(next[i].key, row.key) && next[i].key.id != row.key.id {
      assert next[i] in table;
    }
  }
}
