/**
 * iceberg_sales.py with validate_sales of sales_batch.py: the lakehouse copy of the sales
 * relation. The table has no key of its own, so that one row per order item is a theorem.
 */
module IcebergSales {
  import opened Aggregates
  import opened Prelude
  import opened SalesView

  /** Rows in file order; order never matters. */
  type Rows = seq<Line>

  // ----- Validation -----

  datatype SalesError = BrokenGrain | InvalidMeasures(count: nat)

  ghost predicate Grain(rows: Rows) {
    forall i, j :: 0 <= i < j < |rows| ==> rows[i].itemId != rows[j].itemId
  }

  function Ids(rows: Rows): set<Key> {
    set r | r in rows :: r.itemId
  }

  predicate Negative(r: Line) { r.sale.quantity < 0 || r.sale.salesAmount < 0 }

  function CountNegative(rows: Rows): nat {
    if rows == [] then 0 else (if Negative(rows[0]) then 1 else 0) + CountNegative(rows[1..])
  }

  function ValidateSales(rows: Rows): seq<SalesError> {
    (if |rows| != |Ids(rows)| then [BrokenGrain] else []) +
    (if CountNegative(rows) > 0 then [InvalidMeasures(CountNegative(rows))] else [])
  }

  lemma {:induction false} IdsOfExtended(front: Rows, last: Line)
    ensures Ids(front + [last]) == Ids(front) + {last.itemId}
  {
    var rows := front + [last];
    assert last in rows;
    assert forall r :: r in front ==> r in rows;
    assert forall r :: r in rows ==> r in front || r == last;
  }

  lemma {:induction false} GrainOfExtended(front: Rows, last: Line)
    ensures Grain(front + [last]) <==> Grain(front) && last.itemId !in Ids(front)
  {
    var rows := front + [last];
    if last.itemId in Ids(front) {
      var r :| r in front && r.itemId == last.itemId;
      var i :| 0 <= i < |front| && front[i] == r;
      assert rows[i].itemId == rows[|front|].itemId;
    } else {
      assert forall i :: 0 <= i < |front| ==> front[i] in front;
    }
    assert forall i :: 0 <= i < |front| ==> rows[i] == front[i];
  }

  /** COUNT(*) = COUNT(DISTINCT order_item_id) says exactly that no id repeats. */
  lemma {:induction false} CountsShowGrain(rows: Rows)
    ensures |Ids(rows)| <= |rows|
    ensures |rows| == |Ids(rows)| <==> Grain(rows)
  {
    if rows == [] {
    } else {
      hide Ids, Grain;
      var front, last := rows[..|rows| - 1], rows[|rows| - 1];
      assert rows == front + [last];
      CountsShowGrain(front);
      IdsOfExtended(front, last);
      GrainOfExtended(front, last);
      if last.itemId in Ids(front) {
        assert Ids(rows) == Ids(front);
      }
    }
  }

  /** The places of the rows with a negative quantity or amount. */
  ghost function InvalidPlaces(rows: Rows): set<nat> {
    set i: nat | i < |rows| && (rows[i].sale.quantity < 0 || rows[i].sale.salesAmount < 0)
  }

  lemma {:induction false} CountOfExtended(front: Rows, last: Line)
    ensures CountNegative(front + [last]) == CountNegative(front) + if Negative(last) then 1 else 0
  {
    var rows := front + [last];
    if front == [] {
    } else {
      CountOfExtended(front[1..], last);
      assert rows[1..] == front[1..] + [last];
    }
  }

  lemma {:induction false} CountIsPlaces(rows: Rows)
    ensures CountNegative(rows) == |InvalidPlaces(rows)|
  {
    if rows == [] {
      assert InvalidPlaces(rows) == {};
    } else {
      hide InvalidPlaces, Negative, CountNegative;
      var n := |rows| - 1;
      var front, last := rows[..n], rows[n];
      CountIsPlaces(front);
      assert rows == front + [last];
      CountOfExtended(front, last);
      InvalidOfExtended(front, last);
    }
  }

  lemma {:induction false} InvalidOfExtended(front: Rows, last: Line)
    ensures |InvalidPlaces(front + [last])| == |InvalidPlaces(front)| + if Negative(last) then 1 else 0
  {
    var rows := front + [last];
    assert forall i :: 0 <= i < |front| ==> rows[i] == front[i];
    if Negative(last) {
      assert InvalidPlaces(rows) == InvalidPlaces(front) + {|front|};
    } else {
      assert InvalidPlaces(rows) == InvalidPlaces(front);
    }
  }

  /**
   * The job goes on exactly when no item repeats and no quantity or amount is negative, and the
   * errors say which of the two it is and how many rows are invalid.
   */
  lemma {:induction false} ValidSales(rows: Rows)
    ensures ValidateSales(rows) == [] <==>
      Grain(rows) && forall r :: r in rows ==> r.sale.quantity >= 0 && r.sale.salesAmount >= 0
    ensures BrokenGrain in ValidateSales(rows) <==> !Grain(rows)
    ensures forall n :: InvalidMeasures(n) in ValidateSales(rows) <==> 0 < n == |InvalidPlaces(rows)|
  {
    hide CountNegative, Ids;
    CountsShowGrain(rows);
    CountIsPlaces(rows);
    if r :| r in rows && (r.sale.quantity < 0 || r.sale.salesAmount < 0) {
      var i :| 0 <= i < |rows| && rows[i] == r;
      assert i in InvalidPlaces(rows);
    }
    if i :| i in InvalidPlaces(rows) {
      assert rows[i] in rows;
    } else {
      assert InvalidPlaces(rows) == {};
    }
  }

  // ----- Append and MERGE -----

  function UpdateFor(updates: Rows, id: Key): Option<SalesRow> {
    if updates == [] then None
    else if updates[0].itemId == id then Some(updates[0].sale)
    else UpdateFor(updates[1..], id)
  }

  /** WHEN MATCHED AND source.source_loaded_at >= target.source_loaded_at THEN UPDATE SET * */
  function MergeRow(target: Line, updates: Rows): Line {
    match UpdateFor(updates, target.itemId)
    case None => target
    case Some(sale) => if sale.loadedAt >= target.sale.loadedAt then target.(sale := sale) else target
  }

  /** WHEN NOT MATCHED THEN INSERT * */
  function Unmatched(updates: Rows, ids: set<Key>): Rows {
    if updates == [] then []
    else (if updates[0].itemId in ids then [] else [updates[0]]) + Unmatched(updates[1..], ids)
  }

  function MergeInto(table: Rows, updates: Rows): Rows {
    seq(|table|, i requires 0 <= i < |table| => MergeRow(table[i], updates)) + Unmatched(updates, Ids(table))
  }

  function WriteSales(table: Rows, updates: Rows): Rows {
    if table == [] then table + updates else MergeInto(table, updates)
  }

  // ----- What a table holds -----

  ghost predicate HasId(table: Rows, k: Key) {
    exists i :: 0 <= i < |table| && table[i].itemId == k
  }

  /** `table` has exactly one row per key of `m`, with its value. */
  ghost predicate Represents(table: Rows, m: map<Key, SalesRow>) {
    && Grain(table)
    && (forall i :: 0 <= i < |table| ==> table[i].itemId in m && m[table[i].itemId] == table[i].sale)
    && (forall k :: k in m ==> HasId(table, k))
  }

  lemma {:induction false} UpdateForKey(updates: Rows, id: Key)
    requires Grain(updates)
    ensures UpdateFor(updates, id).None? <==> !HasId(updates, id)
    ensures forall i :: 0 <= i < |updates| && updates[i].itemId == id ==> UpdateFor(updates, id) == Some(updates[i].sale)
  {
    if updates == [] {
    } else {
      var rest := updates[1..];
      UpdateForKey(rest, id);
      if HasId(updates, id) && updates[0].itemId != id {
        var i :| 0 <= i < |updates| && updates[i].itemId == id;
        assert rest[i - 1].itemId == id;
        assert HasId(rest, id);
      }
      if HasId(rest, id) {
        var i :| 0 <= i < |rest| && rest[i].itemId == id;
        assert updates[i + 1].itemId == id;
      }
      assert forall i :: 0 < i < |updates| ==> updates[i] == rest[i - 1];
    }
  }

  /** The inserted rows are the updates with new ids, each once. */
  lemma {:induction false} UnmatchedRows(updates: Rows, ids: set<Key>)
    requires Grain(updates)
    ensures Grain(Unmatched(updates, ids))
    ensures forall r :: r in Unmatched(updates, ids) <==> r in updates && r.itemId !in ids
  {
    if updates == [] {
    } else {
      var rest := updates[1..];
      UnmatchedRows(rest, ids);
      assert updates == [updates[0]] + rest;
      var tail := Unmatched(rest, ids);
      forall i | 0 <= i < |tail| ensures tail[i].itemId != updates[0].itemId {
        assert tail[i] in tail;
        var j :| 0 <= j < |rest| && rest[j] == tail[i];
        assert updates[j + 1] == rest[j];
      }
    }
  }

  /**
   * MERGE row by row, for any updates: a stored row takes the update of its item iff that is at
   * least as new, and the rows behind the stored ones are the updates of other items.
   */
  lemma {:induction false} MergeKeepsNewer(table: Rows, updates: Rows)
    requires table != [] && Grain(updates)
    ensures var after := WriteSales(table, updates);
      && |after| >= |table|
      && (forall i, j :: 0 <= i < |table| && 0 <= j < |updates| && updates[j].itemId == table[i].itemId ==>
            after[i] == if updates[j].sale.loadedAt >= table[i].sale.loadedAt then updates[j] else table[i])
      && (forall i :: 0 <= i < |table| && !HasId(updates, table[i].itemId) ==> after[i] == table[i])
      && (forall r :: r in after[|table|..] <==> r in updates && !HasId(table, r.itemId))
  {
    hide UpdateFor, Unmatched;
    var after := WriteSales(table, updates);
    forall i | 0 <= i < |table|
      ensures UpdateFor(updates, table[i].itemId).None? <==> !HasId(updates, table[i].itemId)
      ensures forall j :: 0 <= j < |updates| && updates[j].itemId == table[i].itemId ==>
        UpdateFor(updates, table[i].itemId) == Some(updates[j].sale)
    {
      UpdateForKey(updates, table[i].itemId);
    }
    assert forall i :: 0 <= i < |table| ==> after[i] == MergeRow(table[i], updates);
    UnmatchedRows(updates, Ids(table));
    assert after[|table|..] == Unmatched(updates, Ids(table));
    forall r: Line ensures r.itemId in Ids(table) <==> HasId(table, r.itemId) {
      IdIsStored(table, r.itemId);
    }
  }

  lemma {:induction false} IdIsStored(table: Rows, id: Key)
    ensures id in Ids(table) <==> HasId(table, id)
  {
    if HasId(table, id) {
      var i :| 0 <= i < |table| && table[i].itemId == id;
      assert table[i] in table;
    }
    if r :| r in table && r.itemId == id {
      var i :| 0 <= i < |table| && table[i] == r;
    }
  }

  /** A write keeps one row per item and puts the updates over what was there. */
  lemma {:induction false} WriteRepresents(table: Rows, updates: Rows, m: map<Key, SalesRow>, u: map<Key, SalesRow>)
    requires Represents(table, m) && Represents(updates, u)
    requires forall k :: k in m && k in u ==> u[k].loadedAt >= m[k].loadedAt
    ensures Represents(WriteSales(table, updates), m + u)
  {
    if table == [] {
      EmptyRepresents(table, m);
      assert table + updates == updates;
      assert m + u == u;
    } else {
      hide Represents, MergeInto;
      MergeRepresents(table, updates, m, u);
    }
  }

  lemma {:induction false} EmptyRepresents(table: Rows, m: map<Key, SalesRow>)
    requires Represents(table, m)
    ensures table == [] <==> m == map[]
  {
    hide Represents, Ids;
    IdsAreKeys(table, m);
    RepresentsGrain(table, m);
    CountsShowGrain(table);
    assert |m.Keys| == |m|;
  }

  lemma {:induction false} MergedRow(
      table: Rows, updates: Rows, m: map<Key, SalesRow>, u: map<Key, SalesRow>, i: nat)
    requires Represents(table, m) && Represents(updates, u)
    requires forall k :: k in m && k in u ==> u[k].loadedAt >= m[k].loadedAt
    requires i < |table|
    ensures var r := MergeRow(table[i], updates);
      r.itemId == table[i].itemId && r.itemId in m + u && r.sale == (m + u)[r.itemId]
  {
    var id := table[i].itemId;
    UpdateForKey(updates, id);
    if HasId(updates, id) {
      var j :| 0 <= j < |updates| && updates[j].itemId == id;
      assert updates[j].itemId in u;
    } else {
      assert id !in u;
    }
  }

  lemma {:induction false} InsertedRow(
      table: Rows, updates: Rows, m: map<Key, SalesRow>, u: map<Key, SalesRow>, r: Line)
    requires Represents(table, m) && Represents(updates, u)
    requires r in Unmatched(updates, Ids(table))
    ensures r.itemId !in Ids(table) && r.itemId in m + u && r.sale == (m + u)[r.itemId]
  {
    hide Ids;
    UnmatchedRows(updates, Ids(table));
    var j :| 0 <= j < |updates| && updates[j] == r;
  }

  lemma {:induction false} IdsAreKeys(table: Rows, m: map<Key, SalesRow>)
    requires Represents(table, m)
    ensures Ids(table) == m.Keys
  {
    forall k | k in m ensures k in Ids(table) {
      assert HasId(table, k);
      var i :| 0 <= i < |table| && table[i].itemId == k;
      assert table[i] in table;
    }
    forall r | r in table ensures r.itemId in m {
      var i :| 0 <= i < |table| && table[i] == r;
    }
  }

  lemma {:induction false} MergeHasKey(
      table: Rows, updates: Rows, m: map<Key, SalesRow>, u: map<Key, SalesRow>, k: Key)
    requires Represents(table, m) && Represents(updates, u) && k in m + u
    ensures HasId(MergeInto(table, updates), k)
  {
    hide UpdateFor, Unmatched, Ids;
    var merged, inserted := MergeInto(table, updates), Unmatched(updates, Ids(table));
    IdsAreKeys(table, m);
    if k in m {
      var i :| 0 <= i < |table| && table[i].itemId == k;
      assert merged[i].itemId == k;
    } else {
      var j :| 0 <= j < |updates| && updates[j].itemId == k;
      UnmatchedRows(updates, Ids(table));
      assert updates[j] in inserted;
      var n :| 0 <= n < |inserted| && inserted[n] == updates[j];
      assert merged[|table| + n].itemId == k;
    }
  }

  lemma {:induction false} MergeKeepsGrain(table: Rows, updates: Rows)
    requires Grain(table) && Grain(updates)
    ensures Grain(MergeInto(table, updates))
  {
    hide UpdateFor, Unmatched;
    var inserted := Unmatched(updates, Ids(table));
    UnmatchedRows(updates, Ids(table));
    assert forall i :: 0 <= i < |table| ==> table[i] in table;
    assert forall n :: 0 <= n < |inserted| ==> inserted[n] in inserted;
  }

  lemma {:induction false} MergeRepresents(table: Rows, updates: Rows, m: map<Key, SalesRow>, u: map<Key, SalesRow>)
    requires Represents(table, m) && Represents(updates, u)
    requires forall k :: k in m && k in u ==> u[k].loadedAt >= m[k].loadedAt
    ensures Represents(MergeInto(table, updates), m + u)
  {
    hide MergeRow, Unmatched, Ids, HasId;
    var merged, inserted := MergeInto(table, updates), Unmatched(updates, Ids(table));
    MergeKeepsGrain(table, updates);
    forall i | 0 <= i < |merged|
      ensures merged[i].itemId in m + u && (m + u)[merged[i].itemId] == merged[i].sale
    {
      if i < |table| {
        MergedRow(table, updates, m, u, i);
      } else {
        assert merged[i] == inserted[i - |table|];
        InsertedRow(table, updates, m, u, merged[i]);
      }
    }
    forall k | k in m + u ensures HasId(merged, k) {
      MergeHasKey(table, updates, m, u, k);
    }
  }

  // ----- The high-water filter -----

  /** MAX(source_loaded_at) of the table, or 1900 when it is empty. */
  function LakeHighWater(rows: Rows): int {
    if rows == [] then EPOCH
    else if |rows| == 1 then rows[0].sale.loadedAt
    else Max(LakeHighWater(rows[..|rows| - 1]), rows[|rows| - 1].sale.loadedAt)
  }

  /** The transform filtered by source_loaded_at > h. */
  function NewSales(sales: Rows, h: int): Rows {
    if sales == [] then []
    else (if sales[0].sale.loadedAt > h then [sales[0]] else []) + NewSales(sales[1..], h)
  }

  lemma {:induction false} LakeHighWaterBounds(rows: Rows)
    requires rows != []
    ensures forall i :: 0 <= i < |rows| ==> rows[i].sale.loadedAt <= LakeHighWater(rows)
    ensures exists i :: 0 <= i < |rows| && rows[i].sale.loadedAt == LakeHighWater(rows)
  {
    if |rows| == 1 {
      assert rows[0].sale.loadedAt == LakeHighWater(rows);
    } else {
      var front := rows[..|rows| - 1];
      LakeHighWaterBounds(front);
      var i :| 0 <= i < |front| && front[i].sale.loadedAt == LakeHighWater(front);
      assert rows[i] == front[i];
      assert rows[|rows| - 1].sale.loadedAt <= LakeHighWater(rows);
    }
  }

  /** The high water of the rows is that of what the table represents. */
  lemma {:induction false} SameHighWater(table: Rows, m: map<Key, SalesRow>)
    requires Represents(table, m)
    ensures LakeHighWater(table) == RowsHighWater(m)
  {
    EmptyRepresents(table, m);
    var times := LoadTimes(m);
    if table != [] {
      LakeHighWaterBounds(table);
      var i :| 0 <= i < |table| && table[i].sale.loadedAt == LakeHighWater(table);
      forall k | k in times ensures times[k] <= times[table[i].itemId] {
        assert HasId(table, k);
      }
      HighWaterIs(times, table[i].itemId);
    } else {
      assert times == map[];
    }
  }

  lemma {:induction false} NewSalesRows(sales: Rows, h: int)
    requires Grain(sales)
    ensures Grain(NewSales(sales, h))
    ensures forall r :: r in NewSales(sales, h) <==> r in sales && r.sale.loadedAt > h
  {
    if sales == [] {
    } else {
      var rest := sales[1..];
      NewSalesRows(rest, h);
      assert sales == [sales[0]] + rest;
      var tail := NewSales(rest, h);
      forall i | 0 <= i < |tail| ensures tail[i].itemId != sales[0].itemId {
        assert tail[i] in tail;
        var j :| 0 <= j < |rest| && rest[j] == tail[i];
        assert sales[j + 1] == rest[j];
      }
    }
  }

  lemma {:induction false} FilteredRow(sales: Rows, view: map<Key, SalesRow>, h: int, i: nat)
    requires Represents(sales, view) && i < |NewSales(sales, h)|
    ensures var r := NewSales(sales, h)[i];
      r.itemId in view && view[r.itemId] == r.sale && r.sale.loadedAt > h
  {
    NewSalesRows(sales, h);
    var r := NewSales(sales, h)[i];
    assert r in NewSales(sales, h);
    var j :| 0 <= j < |sales| && sales[j] == r;
  }

  lemma {:induction false} FilteredKey(sales: Rows, view: map<Key, SalesRow>, h: int, k: Key)
    requires Represents(sales, view) && k in view && view[k].loadedAt > h
    ensures HasId(NewSales(sales, h), k)
  {
    NewSalesRows(sales, h);
    assert HasId(sales, k);
    var j :| 0 <= j < |sales| && sales[j].itemId == k;
    assert sales[j] in NewSales(sales, h);
    var i :| 0 <= i < |NewSales(sales, h)| && NewSales(sales, h)[i] == sales[j];
  }

  /** Filtering the transform by the table's own high water gives the rows the table has yet to read. */
  lemma {:induction false} NewSalesRepresent(sales: Rows, view: map<Key, SalesRow>, table: Rows, m: map<Key, SalesRow>)
    requires Represents(sales, view) && Represents(table, m)
    ensures Represents(NewSales(sales, LakeHighWater(table)), Delta(view, m, true))
  {
    hide RowsHighWater, LakeHighWater, NewSales, HasId, Grain;
    SameHighWater(table, m);
    var h := LakeHighWater(table);
    NewSalesRows(sales, h);
    var candidates, delta := NewSales(sales, h), Delta(view, m, true);
    forall i | 0 <= i < |candidates|
      ensures candidates[i].itemId in delta && delta[candidates[i].itemId] == candidates[i].sale
    {
      FilteredRow(sales, view, h, i);
    }
    forall k | k in delta ensures HasId(candidates, k) {
      FilteredKey(sales, view, h, k);
    }
  }

  function RowSet(rows: Rows): set<Line> {
    set r | r in rows
  }

  /** A table that represents a relation has its rows, each once. */
  lemma {:induction false} RepresentsLines(table: Rows, m: map<Key, SalesRow>)
    requires Represents(table, m)
    ensures RowSet(table) == Lines(m) && |table| == |m|
  {
    forall k | k in m ensures Line(k, m[k]) in table {
      assert HasId(table, k);
    }
    IdsAreKeys(table, m);
    CountsShowGrain(table);
    assert |m.Keys| == |m|;
  }

  // ----- One job -----

  datatype Operation = Append | Merge | NoOp

  datatype Outcome = Committed(operation: Operation) | Rejected(errors: seq<SalesError>) | GrainViolated

  /**
   * What main does with the full transform `sales`: filter by the table's high water, validate,
   * write, and check the grain of what was written.
   */
  function Job(table: Rows, sales: Rows): (Rows, Outcome) {
    var candidates := NewSales(sales, LakeHighWater(table));
    if ValidateSales(candidates) != [] then (table, Rejected(ValidateSales(candidates)))
    else
      var table' := if candidates == [] then table else WriteSales(table, candidates);
      if |table'| != |Ids(table')| then (table', GrainViolated)
      else (table', Committed(if candidates == [] then NoOp else if table == [] then Append else Merge))
  }

  /**
   * A job over a relation the table follows leaves the table equal to it, or changes nothing
   * because some candidate has a negative measure. The grain check never fails.
   */
  lemma {:induction false} JobRefreshes(table: Rows, m: map<Key, SalesRow>, view: map<Key, SalesRow>, sales: Rows)
    requires Represents(table, m) && Follows(m, view) && m.Keys <= view.Keys
    requires Represents(sales, view)
    ensures Job(table, sales).1.Committed? ==> Represents(Job(table, sales).0, view)
    ensures Job(table, sales).1.Rejected? ==> Job(table, sales).0 == table
    ensures Job(table, sales).1.Committed? <==>
      forall k :: k in view && view[k].loadedAt > RowsHighWater(m) ==> view[k].quantity >= 0 && view[k].salesAmount >= 0
    ensures !Job(table, sales).1.GrainViolated?
  {
    hide Represents, Follows, WriteSales, RowsHighWater, NewSales, LakeHighWater, ValidateSales, Ids, Delta;
    var u, updates := Delta(view, m, true), NewSales(sales, LakeHighWater(table));
    NewSalesRepresent(sales, view, table, m);
    RepresentsGrain(updates, u);
    ValidSales(updates);
    MeasuresOfDelta(view, m, updates);
    DeltaCompletes(m, view, true);
    if updates == [] {
      EmptyRepresents(updates, u);
      assert m + u == m;
    } else {
      DeltaIsNewer(view, m);
      WriteRepresents(table, updates, m, u);
    }
    var table' := if updates == [] then table else WriteSales(table, updates);
    assert Represents(table', view);
    RepresentsGrain(table', view);
    CountsShowGrain(table');
  }

  lemma {:induction false} MeasuresOfDelta(view: map<Key, SalesRow>, m: map<Key, SalesRow>, updates: Rows)
    requires Represents(updates, Delta(view, m, true))
    ensures (forall r :: r in updates ==> r.sale.quantity >= 0 && r.sale.salesAmount >= 0) <==>
      forall k :: k in view && view[k].loadedAt > RowsHighWater(m) ==> view[k].quantity >= 0 && view[k].salesAmount >= 0
  {
    hide RowsHighWater, Represents;
    var delta := Delta(view, m, true);
    RowsAre(updates, delta);
    forall k | k in delta ensures Line(k, delta[k]) in updates {
    }
    if forall r :: r in updates ==> r.sale.quantity >= 0 && r.sale.salesAmount >= 0 {
      forall k | k in view && view[k].loadedAt > RowsHighWater(m)
        ensures view[k].quantity >= 0 && view[k].salesAmount >= 0
      {
        assert k in delta && Line(k, delta[k]) in updates;
      }
    }
  }

  lemma {:induction false} RowsAre(table: Rows, m: map<Key, SalesRow>)
    requires Represents(table, m)
    ensures forall r :: r in table <==> r.itemId in m && m[r.itemId] == r.sale
  {
    RepresentsLines(table, m);
    assert forall r :: r in table <==> r in RowSet(table);
    assert forall r :: r in Lines(m) <==> r.itemId in m && m[r.itemId] == r.sale;
  }

  lemma {:induction false} RepresentsGrain(table: Rows, m: map<Key, SalesRow>)
    requires Represents(table, m)
    ensures Grain(table)
  {
  }

  /** The guard of the MERGE never holds a delta row back. */
  lemma {:induction false} DeltaIsNewer(view: map<Key, SalesRow>, m: map<Key, SalesRow>)
    ensures forall k :: k in m && k in Delta(view, m, true) ==> Delta(view, m, true)[k].loadedAt >= m[k].loadedAt
  {
    var times := LoadTimes(m);
    forall k | k in m ensures m[k].loadedAt <= RowsHighWater(m) {
      assert k in times;
    }
  }

  /** Without new rows a job is a no-op; in particular the second of two jobs is. */
  lemma {:induction false} SecondJobIsNoOp(table: Rows, view: map<Key, SalesRow>, sales: Rows)
    requires Represents(table, view) && Represents(sales, view)
    ensures Job(table, sales) == (table, Committed(NoOp))
  {
    hide Represents, Delta, NewSales, LakeHighWater, ValidateSales, Ids;
    NewSalesRepresent(sales, view, table, view);
    NothingNew(view);
    EmptyRepresents(NewSales(sales, LakeHighWater(table)), Delta(view, view, true));
    ValidSales([]);
    RepresentsGrain(table, view);
    CountsShowGrain(table);
    RepresentsGrain(NewSales(sales, LakeHighWater(table)), Delta(view, view, true));
  }

  /** The job as it runs against the table. */
  class LakeTable {
    var rows: Rows

    constructor ()
      ensures rows == []
    {
      rows := [];
    }

    method HighWatermark() returns (h: int)
      ensures h == LakeHighWater(rows)
    {
      h := EPOCH;
      for i := 0 to |rows|
        invariant h == LakeHighWater(rows[..i])
      {
        assert rows[..i + 1][..i] == rows[..i];
        h := if i == 0 then rows[i].sale.loadedAt else Max(h, rows[i].sale.loadedAt);
      }
      assert rows[..|rows|] == rows;
    }

    method Write(updates: Rows, tableIsEmpty: bool) returns (operation: Operation)
      requires tableIsEmpty <==> rows == []
      modifies this
      ensures rows == WriteSales(old(rows), updates)
      ensures operation == if tableIsEmpty then Append else Merge
    {
      if tableIsEmpty {
        rows := rows + updates;
        return Append;
      }
      var inserted := Unmatched(updates, Ids(rows));
      rows := seq(|rows|, i requires 0 <= i < |rows| reads this => MergeRow(rows[i], updates)) + inserted;
      return Merge;
    }

    /** main, given the rows of the transform. */
    method Run(sales: Rows) returns (outcome: Outcome)
      modifies this
      ensures (rows, outcome) == Job(old(rows), sales)
    {
      var tableIsEmpty := |rows| == 0;
      var highWater := HighWatermark();
      var updates := NewSales(sales, highWater);
      var errors := ValidateSales(updates);
      if errors != [] {
        return Rejected(errors);
      }
      var operation := NoOp;
      if |updates| > 0 {
        operation := Write(updates, tableIsEmpty);
      }
      if |rows| != |Ids(rows)| {
        return GrainViolated;
      }
      return Committed(operation);
    }
  }
}
