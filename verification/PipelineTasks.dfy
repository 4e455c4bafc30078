/**
 * The database tasks of airflow/dags/ecommerce_pipeline.py as they run: window capture, the
 * staging upsert with its candidate, and the final watermark commit.
 */
module PipelineTasks {
  import opened Prelude
  import opened Watermarks
  import opened WatermarkRuns

  datatype TaskError = MissingWatermark | IncompleteBatch(missing: set<TableName>)

  lemma {:induction false} NewestTimeExists(times: set<int>, u: int)
    requires u in times
    ensures exists m :: m in times && u <= m && forall v :: v in times ==> v <= m
    decreases |times|
  {
    if v :| v in times && u < v {
      NewestTimeExists(times - {u}, v);
      var m :| m in times - {u} && v <= m && forall w :: w in times - {u} ==> w <= m;
      forall w | w in times ensures w <= m {
        assert w == u || w in times - {u};
      }
    }
  }

  /** `after` has a copy of each source row of the window, and otherwise what `before` had staged. */
  ghost predicate CopiesWindow(t: TableName, before: Table, after: Table, mode: Mode, w: Window) {
    forall k ::
      if k in before.source && InWindow(mode, w, before.source[k].updatedAt)
      then k in after.staging && Copies(t, after.staging[k], before.source[k])
      else Lookup(after.staging, k) == Lookup(before.staging, k)
  }

  lemma {:induction false} LoadCopies(t: TableName, table: Table, mode: Mode, w: Window)
    ensures CopiesWindow(t, table, Upsert(t, table, mode, w), mode, w)
  {
    hide Copies, Upsert;
    forall k
      ensures
        var after := Upsert(t, table, mode, w);
        if k in table.source && InWindow(mode, w, table.source[k].updatedAt)
        then k in after.staging && Copies(t, after.staging[k], table.source[k])
        else Lookup(after.staging, k) == Lookup(table.staging, k)
    {
      LoadCopiesWindow(t, table, mode, w, k);
    }
  }

  /** The source relations, their staging copies and the rows of metadata.etl_watermark. */
  class EtlDatabase {
    var tables: Tables
    /** The tables that have a row in metadata.etl_watermark. */
    var tracked: set<TableName>

    constructor (tables: Tables, tracked: set<TableName>)
      ensures this.tables == tables && this.tracked == tracked
    {
      this.tables, this.tracked := tables, tracked;
    }

    /** SELECT COALESCE(MAX(updated_at), lower) FROM the source table. */
    method SourceMax(t: TableName, lower: int) returns (m: int)
      ensures IsSourceMax(tables.Of(t).source, lower, m)
    {
      var source := tables.Of(t).source;
      if source == map[] {
        return lower;
      }
      var times := set k | k in source :: source[k].updatedAt;
      ghost var k :| k in source;
      assert forall k :: k in source ==> source[k].updatedAt in times;
      NewestTimeExists(times, source[k].updatedAt);
      m :| m in times && forall u :: u in times ==> u <= m;
    }

    /** The first half of extract_incremental: the bounds, read in transactions of their own. */
    method CaptureWindow(t: TableName, mode: Mode) returns (r: Result<Window, TaskError>)
      ensures r.Failure? <==> t !in tracked
      ensures r.Success? ==> IsWindow(tables.Of(t), mode, r.value)
    {
      if t !in tracked {
        return Failure(MissingWatermark);
      }
      if mode.Backfill? {
        return Success(Window(mode.start, mode.end));
      }
      var lower := tables.Of(t).mark.watermark;
      var upper := SourceMax(t, lower);
      return Success(Window(lower, upper));
    }

    /** The second half: staging and candidate move in one transaction, no other table does. */
    method LoadWindow(t: TableName, mode: Mode, w: Window)
      modifies this`tables
      ensures tables == old(tables).With(t, Upsert(t, old(tables).Of(t), mode, w))
      ensures CopiesWindow(t, old(tables).Of(t), tables.Of(t), mode, w)
    {
      LoadCopies(t, tables.Of(t), mode, w);
      var table := tables.Of(t);
      var batch := map k | k in table.source && InWindow(mode, w, table.source[k].updatedAt) :: Staged(t, table.source[k]);
      table := table.(staging := table.staging + batch);
      if mode == Incremental {
        var prepared := if table.mark.candidate.Some? then table.mark.candidate.value else w.upper;
        table := table.(mark := table.mark.(candidate := Some(Max(prepared, w.upper))));
      }
      tables := tables.With(t, table);
    }

    /** An extract with no source commit in between captures everything the source holds. */
    method ExtractIncremental(t: TableName, mode: Mode) returns (r: Result<Window, TaskError>)
      modifies this`tables
      ensures r.Failure? <==> t !in tracked
      ensures r.Failure? ==> tables == old(tables)
      ensures r.Success? ==>
        && IsWindow(old(tables).Of(t), mode, r.value)
        && tables == old(tables).With(t, Upsert(t, old(tables).Of(t), mode, r.value))
        && CopiesWindow(t, old(tables).Of(t), tables.Of(t), mode, r.value)
    {
      r := CaptureWindow(t, mode);
      if r.Success? {
        LoadWindow(t, mode, r.value);
      }
    }

    /** The barrier: nothing for a backfill, all four tables or none for an incremental run. */
    method AdvanceWatermarks(mode: Mode) returns (r: Result<(), TaskError>)
      modifies this`tables
      ensures r.Success? <==> mode.Backfill? || forall t :: t in tracked && old(tables).Of(t).mark.candidate.Some?
      ensures mode.Incremental? && r.Failure? ==>
        r.error == IncompleteBatch(set t: TableName | t !in tracked || old(tables).Of(t).mark.candidate.None?)
      ensures tables == if mode.Incremental? && r.Success? then PromoteAll(old(tables)) else old(tables)
    {
      if mode.Backfill? {
        return Success(());
      }
      var missing := set t: TableName | t !in tracked || tables.Of(t).mark.candidate.None?;
      if missing != {} {
        var t :| t in missing;
        return Failure(IncompleteBatch(missing));
      }
      assert forall t :: t !in missing ==> t in tracked && tables.Of(t).mark.candidate.Some?;
      tables := PromoteAll(tables);
      return Success(());
    }
  }

  /** What the extract leaves behind: everything the source holds above the watermark is staged, with a candidate. */
  lemma {:induction false} ExtractCapturesSource(t: TableName, table: Table, w: Window)
    requires TableInv(t, table) && IsWindow(table, Incremental, w)
    ensures var table' := Upsert(t, table, Incremental, w);
      forall k :: k in table'.source ==>
        && k in table'.staging && table'.staging[k] == Staged(t, table'.source[k])
        && Copies(t, table'.staging[k], table'.source[k])
  {
    hide Staged, ColumnMapping, Copies, UpsertStaging;
    forall k | k in table.source ensures Copies(t, Staged(t, table.source[k]), table.source[k]) {
      StagedCopies(t, table.source[k]);
    }
    UpsertCaptures(t, table, Incremental, w, table.mark.watermark, w.upper);
    if table.source != map[] {
      var k :| k in table.source && table.source[k].updatedAt == w.upper;
    }
  }
}
