/**
 * One polled table of airflow/dags/ecommerce_pipeline.py: the source relation, its staging
 * copy, and the pair of watermarks that says how much of the source has been captured.
 */
module Watermarks {
  import opened Prelude

  /** Column values in text form; an absent column is NULL. */
  type Columns = map<string, string>

  datatype Row = Row(updatedAt: int, columns: Columns)

  datatype TableName = Products | Orders | OrderItems | Payments

  /** watermark_value is safe for all consumers; candidate_value is staged but not yet committed. */
  datatype Mark = Mark(watermark: int, candidate: Option<int>)

  datatype Table = Table(source: map<Key, Row>, staging: map<Key, Row>, mark: Mark)

  datatype Mode = Incremental | Backfill(start: int, end: int)

  datatype Window = Window(lower: int, upper: int)

  /** target_columns and source_columns of the extract task, besides the key and updated_at. */
  function ColumnMapping(t: TableName): map<string, string> {
    match t
    case Products =>
      map["name" := "name", "category" := "category", "price" := "price", "created_at" := "created_at"]
    case Orders =>
      map["customer_id" := "customer_id", "order_date" := "order_date", "status" := "status",
          "total_amount" := "total_amount", "created_at" := "created_at"]
    case OrderItems =>
      map["order_id" := "order_id", "product_id" := "product_id", "quantity" := "quantity",
          "unit_price" := "unit_price", "created_at" := "created_at"]
    case Payments =>
      map["order_id" := "order_id", "amount" := "amount", "payment_method" := "payment_method",
          "payment_status" := "status", "paid_at" := "paid_at", "created_at" := "created_at"]
  }

  /** The staging image of a source row. */
  function Staged(t: TableName, row: Row): Row {
    var mapping := ColumnMapping(t);
    Row(row.updatedAt, map c | c in mapping && mapping[c] in row.columns :: row.columns[mapping[c]])
  }

  /** Each of `columns` has in `staged` the value it has in `source`, NULL included. */
  predicate SameColumns(staged: Columns, source: Columns, columns: set<string>) {
    forall c :: c in columns ==> Lookup(staged, c) == Lookup(source, c)
  }

  /**
   * `staged` has the time and the listed columns of the source row and no others. The only
   * column with another name is the status of a payment.
   */
  predicate Copies(t: TableName, staged: Row, source: Row) {
    && staged.updatedAt == source.updatedAt
    && match t
       case Products =>
         var columns := {"name", "category", "price", "created_at"};
         staged.columns.Keys <= columns && SameColumns(staged.columns, source.columns, columns)
       case Orders =>
         var columns := {"customer_id", "order_date", "status", "total_amount", "created_at"};
         staged.columns.Keys <= columns && SameColumns(staged.columns, source.columns, columns)
       case OrderItems =>
         var columns := {"order_id", "product_id", "quantity", "unit_price", "created_at"};
         staged.columns.Keys <= columns && SameColumns(staged.columns, source.columns, columns)
       case Payments =>
         var columns := {"order_id", "amount", "payment_method", "paid_at", "created_at"};
         && staged.columns.Keys <= columns + {"payment_status"}
         && SameColumns(staged.columns, source.columns, columns)
         && Lookup(staged.columns, "payment_status") == Lookup(source.columns, "status")
  }

  /** Renaming every column of `mapping` gives each of them its source column's value, and nothing else. */
  lemma {:induction false} RenamedColumns(mapping: map<string, string>, source: Columns)
    ensures var staged := map c | c in mapping && mapping[c] in source :: source[mapping[c]];
      && staged.Keys <= mapping.Keys
      && forall c :: c in mapping ==> Lookup(staged, c) == Lookup(source, mapping[c])
  {
  }

  /** Which columns are renamed. */
  lemma {:induction false} OneColumnIsRenamed(t: TableName)
    ensures forall c :: c in ColumnMapping(t) ==>
      ColumnMapping(t)[c] == if t == Payments && c == "payment_status" then "status" else c
    ensures t == Products ==> ColumnMapping(t).Keys == {"name", "category", "price", "created_at"}
    ensures t == Orders ==> ColumnMapping(t).Keys == {"customer_id", "order_date", "status", "total_amount", "created_at"}
    ensures t == OrderItems ==> ColumnMapping(t).Keys == {"order_id", "product_id", "quantity", "unit_price", "created_at"}
    ensures t == Payments ==>
      ColumnMapping(t).Keys == {"order_id", "amount", "payment_method", "paid_at", "created_at"} + {"payment_status"}
  {
  }

  lemma {:induction false} StagedCopies(t: TableName, row: Row)
    ensures Copies(t, Staged(t, row), row)
  {
    hide ColumnMapping, SameColumns;
    OneColumnIsRenamed(t);
    if t == Payments {
      PaymentColumns(ColumnMapping(t), row.columns, {"order_id", "amount", "payment_method", "paid_at", "created_at"});
    } else {
      SameNames(ColumnMapping(t), row.columns);
    }
  }

  lemma {:induction false} SameNames(mapping: map<string, string>, source: Columns)
    requires forall c :: c in mapping ==> mapping[c] == c
    ensures var staged := map c | c in mapping && mapping[c] in source :: source[mapping[c]];
      staged.Keys <= mapping.Keys && SameColumns(staged, source, mapping.Keys)
  {
    RenamedColumns(mapping, source);
  }

  lemma {:induction false} PaymentColumns(mapping: map<string, string>, source: Columns, columns: set<string>)
    requires mapping.Keys == columns + {"payment_status"} && "payment_status" !in columns
    requires forall c :: c in mapping ==> mapping[c] == if c == "payment_status" then "status" else c
    ensures var staged := map c | c in mapping && mapping[c] in source :: source[mapping[c]];
      && staged.Keys <= columns + {"payment_status"} && SameColumns(staged, source, columns)
      && Lookup(staged, "payment_status") == Lookup(source, "status")
  {
    RenamedColumns(mapping, source);
  }

  /** Maps with the same answers to every keyed SELECT are equal. */
  lemma {:induction false} SameLookups<K, V>(a: map<K, V>, b: map<K, V>)
    requires forall k :: Lookup(a, k) == Lookup(b, k)
    ensures a == b
  {
    forall k
      ensures k in a <==> k in b
      ensures k in a && k in b ==> a[k] == b[k]
    {
      assert Lookup(a, k) == Lookup(b, k);
    }
  }

  // ----- Windows -----

  /** `m` is COALESCE(MAX(updated_at), lower) over the source. */
  ghost predicate IsSourceMax(source: map<Key, Row>, lower: int, m: int) {
    && (source == map[] ==> m == lower)
    && (source != map[] ==> exists k :: k in source && source[k].updatedAt == m)
    && (forall k :: k in source ==> source[k].updatedAt <= m)
  }

  /** The window an extract captures: (watermark, source max], or the backfill's [start, end). */
  ghost predicate IsWindow(table: Table, mode: Mode, w: Window) {
    match mode
    case Backfill(start, end) => w == Window(start, end)
    case Incremental => w.lower == table.mark.watermark && IsSourceMax(table.source, w.lower, w.upper)
  }

  predicate InWindow(mode: Mode, w: Window, u: int) {
    if mode.Backfill? then w.lower <= u < w.upper else w.lower < u <= w.upper
  }

  /** INSERT ... SELECT ... ON CONFLICT DO UPDATE over the window. */
  function UpsertStaging(
      t: TableName, source: map<Key, Row>, staging: map<Key, Row>, mode: Mode, w: Window): map<Key, Row> {
    staging + map k | k in source && InWindow(mode, w, source[k].updatedAt) :: Staged(t, source[k])
  }

  /** The upsert row by row: a row of the window takes its source image, every other row stays. */
  lemma {:induction false} UpsertedRow(
    t: TableName, source: map<Key, Row>, staging: map<Key, Row>, mode: Mode, w: Window, k: Key)
    ensures
      var after := UpsertStaging(t, source, staging, mode, w);
      Lookup(after, k) ==
        if k in source && InWindow(mode, w, source[k].updatedAt) then Some(Staged(t, source[k])) else Lookup(staging, k)
  {
    hide Staged, ColumnMapping, InWindow;
  }

  /** candidate_value = GREATEST(COALESCE(candidate_value, upper), upper), in incremental mode only. */
  function RaiseCandidate(mark: Mark, mode: Mode, upper: int): Mark {
    if mode.Backfill? then mark
    else mark.(candidate := Some(Max(if mark.candidate.Some? then mark.candidate.value else upper, upper)))
  }

  /** The single transaction of extract_incremental: staging and candidate together. */
  function Upsert(t: TableName, table: Table, mode: Mode, w: Window): Table {
    table.(staging := UpsertStaging(t, table.source, table.staging, mode, w),
           mark := RaiseCandidate(table.mark, mode, w.upper))
  }

  /** watermark_value = GREATEST(watermark_value, candidate_value), candidate_value = NULL. */
  function Promote(mark: Mark): Mark {
    match mark.candidate
    case None => mark
    case Some(c) => Mark(Max(mark.watermark, c), None)
  }

  /**
   * What a load does, column by column. A source row of the window, open below and closed above
   * or half-open for a backfill, is copied; every other staged row and the source stay as they are.
   */
  lemma {:induction false} LoadCopiesWindow(t: TableName, table: Table, mode: Mode, w: Window, k: Key)
    ensures var after := Upsert(t, table, mode, w);
      && after.source == table.source
      && (k in table.source
          && (if mode == Incremental then w.lower < table.source[k].updatedAt <= w.upper
              else w.lower <= table.source[k].updatedAt < w.upper) ==>
            k in after.staging && Copies(t, after.staging[k], table.source[k]))
      && (k !in table.source
          || (if mode == Incremental then !(w.lower < table.source[k].updatedAt <= w.upper)
              else !(w.lower <= table.source[k].updatedAt < w.upper)) ==>
            Lookup(after.staging, k) == Lookup(table.staging, k))
    ensures var mark, mark' := table.mark, Upsert(t, table, mode, w).mark;
      && mark'.watermark == mark.watermark
      && (mode.Backfill? ==> mark' == mark)
      && (mode.Incremental? ==>
            && mark'.candidate.Some? && mark'.candidate.value >= w.upper
            && (mark.candidate.Some? ==> mark'.candidate.value >= mark.candidate.value)
            && (mark'.candidate.value == w.upper || mark'.candidate == mark.candidate))
  {
    hide Copies, Staged, ColumnMapping, UpsertStaging;
    UpsertedRow(t, table.source, table.staging, mode, w, k);
    if k in table.source {
      StagedCopies(t, table.source[k]);
    }
  }

  // ----- What staging knows about the source -----

  /** A staged row is an older image of its source row, or its image. */
  ghost predicate StagingTrails(t: TableName, table: Table) {
    forall k :: k in table.source && k in table.staging ==>
      table.staging[k].updatedAt < table.source[k].updatedAt || table.staging[k] == Staged(t, table.source[k])
  }

  /** Every source row up to `bound` is staged as it is. */
  ghost predicate CapturedUpTo(t: TableName, table: Table, bound: int) {
    forall k :: k in table.source && table.source[k].updatedAt <= bound ==>
      k in table.staging && table.staging[k] == Staged(t, table.source[k])
  }

  ghost predicate TableInv(t: TableName, table: Table) {
    && StagingTrails(t, table)
    && CapturedUpTo(t, table, table.mark.watermark)
    && (table.mark.candidate.Some? ==> CapturedUpTo(t, table, table.mark.candidate.value))
  }

  /**
   * A source commit's timestamp is above everything captured from the table so far: its
   * watermarks, the window being captured now, and the staged image of the row it writes.
   */
  ghost predicate AboveCaptured(table: Table, pending: Option<Window>, k: Key, u: int) {
    && table.mark.watermark < u
    && (table.mark.candidate.Some? ==> table.mark.candidate.value < u)
    && (pending.Some? ==> pending.value.upper < u)
    && (k in table.staging ==> table.staging[k].updatedAt < u)
  }

  lemma {:induction false} CommitInv(t: TableName, table: Table, pending: Option<Window>, k: Key, row: Row)
    requires TableInv(t, table) && AboveCaptured(table, pending, k, row.updatedAt)
    ensures TableInv(t, table.(source := table.source[k := row]))
  {
    hide Staged, ColumnMapping;
  }

  lemma {:induction false} DeleteInv(t: TableName, table: Table, k: Key)
    requires TableInv(t, table)
    ensures TableInv(t, table.(source := table.source - {k}))
  {
    hide Staged, ColumnMapping;
  }

  lemma {:induction false} UpsertTrails(t: TableName, table: Table, mode: Mode, w: Window)
    requires StagingTrails(t, table)
    ensures StagingTrails(t, Upsert(t, table, mode, w))
  {
    hide Staged, ColumnMapping, UpsertStaging;
    var after := Upsert(t, table, mode, w);
    forall k | k in table.source && k in after.staging
      ensures after.staging[k].updatedAt < table.source[k].updatedAt || after.staging[k] == Staged(t, table.source[k])
    {
      UpsertedRow(t, table.source, table.staging, mode, w, k);
    }
  }

  /** What was captured stays captured, and an incremental extract captures up to its upper bound. */
  lemma {:induction false} UpsertCaptures(t: TableName, table: Table, mode: Mode, w: Window, captured: int, bound: int)
    requires CapturedUpTo(t, table, captured)
    requires bound <= captured || (mode.Incremental? && w.lower <= captured && bound <= w.upper)
    ensures CapturedUpTo(t, Upsert(t, table, mode, w), bound)
  {
    hide Staged, ColumnMapping, UpsertStaging;
    var after := Upsert(t, table, mode, w);
    forall k | k in table.source && table.source[k].updatedAt <= bound
      ensures k in after.staging && after.staging[k] == Staged(t, table.source[k])
    {
      UpsertedRow(t, table.source, table.staging, mode, w, k);
    }
  }

  /** An upsert keeps the invariant even when the source moved on after the window was captured. */
  lemma {:induction false} UpsertInv(t: TableName, table: Table, mode: Mode, w: Window)
    requires TableInv(t, table)
    requires mode.Incremental? ==> w.lower == table.mark.watermark
    ensures TableInv(t, Upsert(t, table, mode, w))
  {
    hide StagingTrails, CapturedUpTo, UpsertStaging;
    UpsertTrails(t, table, mode, w);
    UpsertCaptures(t, table, mode, w, table.mark.watermark, table.mark.watermark);
    if mode.Incremental? {
      UpsertCaptures(t, table, mode, w, table.mark.watermark, w.upper);
    }
    if table.mark.candidate.Some? {
      UpsertCaptures(t, table, mode, w, table.mark.candidate.value, table.mark.candidate.value);
    }
  }

  lemma {:induction false} PromoteInv(t: TableName, table: Table)
    requires TableInv(t, table)
    ensures TableInv(t, table.(mark := Promote(table.mark)))
    ensures Promote(table.mark).watermark >= table.mark.watermark
  {
    hide Staged, ColumnMapping;
  }

  // ----- The candidate is not an upper bound of the watermark -----

  /** After an extract the candidate reaches the watermark iff the old candidate or the source still does. */
  lemma {:induction false} CandidateReachesWatermark(t: TableName, table: Table, w: Window)
    requires IsWindow(table, Incremental, w)
    ensures Upsert(t, table, Incremental, w).mark.candidate.Some?
    ensures Upsert(t, table, Incremental, w).mark.candidate.value >= table.mark.watermark <==>
      || (table.mark.candidate.Some? && table.mark.candidate.value >= table.mark.watermark)
      || table.source == map[]
      || exists k :: k in table.source && table.source[k].updatedAt >= table.mark.watermark
  {
    if table.source != map[] {
      var k :| k in table.source && table.source[k].updatedAt == w.upper;
    }
  }

  // ----- Backfills -----

  /** Adjacent half-open windows compose. */
  lemma {:induction false} BackfillsCompose(
      t: TableName, source: map<Key, Row>, staging: map<Key, Row>, a: int, b: int, c: int)
    requires a <= b <= c
    ensures
      var first := UpsertStaging(t, source, staging, Backfill(a, b), Window(a, b));
      UpsertStaging(t, source, first, Backfill(b, c), Window(b, c))
      == UpsertStaging(t, source, staging, Backfill(a, c), Window(a, c))
  {
    hide Staged, ColumnMapping, UpsertStaging;
    var first := UpsertStaging(t, source, staging, Backfill(a, b), Window(a, b));
    var second := UpsertStaging(t, source, first, Backfill(b, c), Window(b, c));
    var whole := UpsertStaging(t, source, staging, Backfill(a, c), Window(a, c));
    forall k
      ensures Lookup(second, k) == Lookup(whole, k)
    {
      UpsertedRow(t, source, staging, Backfill(a, b), Window(a, b), k);
      UpsertedRow(t, source, first, Backfill(b, c), Window(b, c), k);
      UpsertedRow(t, source, staging, Backfill(a, c), Window(a, c), k);
    }
    SameLookups(second, whole);
  }

  /** Repeating a backfill over an unchanged source changes no business column and no watermark. */
  lemma {:induction false} BackfillRepeats(t: TableName, table: Table, a: int, b: int)
    ensures var once := Upsert(t, table, Backfill(a, b), Window(a, b));
      && Upsert(t, once, Backfill(a, b), Window(a, b)) == once
      && once.mark == table.mark && once.source == table.source
  {
    hide Staged, ColumnMapping;
  }

  /** A backfill below the watermark finds nothing to change. */
  lemma {:induction false} BackfillBelowWatermarkIsNoOp(t: TableName, table: Table, a: int, b: int)
    requires TableInv(t, table) && b <= table.mark.watermark + 1
    ensures Upsert(t, table, Backfill(a, b), Window(a, b)) == table
  {
    hide Staged, ColumnMapping;
    var staging' := UpsertStaging(t, table.source, table.staging, Backfill(a, b), Window(a, b));
    assert staging' == table.staging;
  }
}
