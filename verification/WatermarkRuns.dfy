/**
 * Whole histories of the polled pipeline: source commits and deletes, incremental runs and
 * backfills one at a time, extracts that fail between capturing a window and loading it,
 * three sinks that finish in any order, and one barrier that commits the watermarks.
 */
module WatermarkRuns {
  import opened Prelude
  import opened Watermarks
  import opened OrderEvents

  datatype Sink = Dbt | Iceberg | OrderTopic

  const ALL_SINKS := {Dbt, Iceberg, OrderTopic}

  /** The active DAG run: windows captured, extracts committed, sinks finished. */
  datatype Run = Run(
    mode: Mode, windows: map<TableName, Window>, extracted: set<TableName>, validated: bool, sinks: set<Sink>)

  /** The four polled tables. */
  datatype Tables = Tables(products: Table, orders: Table, orderItems: Table, payments: Table) {
    function Of(t: TableName): Table {
      match t
      case Products => products
      case Orders => orders
      case OrderItems => orderItems
      case Payments => payments
    }

    function With(t: TableName, table: Table): (r: Tables)
      ensures forall t' :: r.Of(t') == if t' == t then table else Of(t')
    {
      match t
      case Products => this.(products := table)
      case Orders => this.(orders := table)
      case OrderItems => this.(orderItems := table)
      case Payments => this.(payments := table)
    }
  }

  /** `published` is the order topic: every version appended to it, repeats included. */
  datatype World = World(tables: Tables, run: Option<Run>, published: seq<Version>)

  // ----- Configuration -----

  datatype Params = Params(backfill: bool, start: Option<int>, end: Option<int>)

  datatype ConfigError = BoundsRequired | StartNotBeforeEnd

  /** Rejects a backfill without both bounds or with an empty window; a scheduled run ignores the bounds. */
  function ValidateRunConfig(p: Params): (r: Result<Mode, ConfigError>)
    ensures r.Failure? ==> p.backfill
    ensures r.Success? ==> (r.value.Backfill? <==> p.backfill)
    ensures p.backfill ==> (r.Success? <==> p.start.Some? && p.end.Some? && p.start.value < p.end.value)
    ensures r.Success? && p.backfill ==> forall u :: InWindow(r.value, Window(r.value.start, r.value.end), u) <==>
      p.start.value <= u < p.end.value
  {
    if !p.backfill then Success(Incremental)
    else if p.start.None? || p.end.None? then Failure(BoundsRequired)
    else if p.start.value >= p.end.value then Failure(StartNotBeforeEnd)
    else Success(Backfill(p.start.value, p.end.value))
  }

  predicate AllIn(extracted: set<TableName>) { forall t :: t in extracted }

  // ----- The order topic -----

  function StagedVersion(k: Key, row: Row): Version {
    Version(k, row.updatedAt,
      Payload(Lookup(row.columns, "customer_id"), Lookup(row.columns, "status"),
              Lookup(row.columns, "total_amount"), Lookup(row.columns, "order_date")))
  }

  /** The publisher's bounds: the backfill's, or (watermark, candidate]; it fails without a candidate. */
  function PublishWindow(mode: Mode, mark: Mark): Option<Window> {
    match mode
    case Backfill(start, end) => Some(Window(start, end))
    case Incremental => if mark.candidate.Some? then Some(Window(mark.watermark, mark.candidate.value)) else None
  }

  /** Every staged order of the publisher's window is in the topic. */
  ghost predicate Delivered(orders: Table, mode: Mode, published: seq<Version>) {
    var w := PublishWindow(mode, orders.mark);
    && w.Some?
    && forall k :: k in orders.staging && InWindow(mode, w.value, orders.staging[k].updatedAt) ==>
         StagedVersion(k, orders.staging[k]) in published
  }

  // ----- Validation between extracts and sinks -----

  /** Every row of `child` names, in column `c`, a row of `parent`. */
  ghost predicate Refers(child: map<Key, Row>, c: string, parent: map<Key, Row>) {
    forall k :: k in child ==> c in child[k].columns && child[k].columns[c] in parent
  }

  /** validate_record_count and validate_relationships over the polled tables. */
  ghost predicate Validated(tables: Tables)
  {
    && (forall t :: tables.Of(t).staging != map[])
    && Refers(tables.orderItems.staging, "order_id", tables.orders.staging)
    && Refers(tables.orderItems.staging, "product_id", tables.products.staging)
    && Refers(tables.payments.staging, "order_id", tables.orders.staging)
  }

  // ----- Steps -----

  datatype Step =
    | Commit(t: TableName, k: Key, row: Row)
    | Delete(t: TableName, k: Key)
    | Start(params: Params)
    | Capture(t: TableName, window: Window)
    | Load(t: TableName)
    | Validate
    | Publish(k: Key)
    | Finish(sink: Sink)
    | Barrier
    | Abort

  function Pending(w: World, t: TableName): Option<Window> {
    if w.run.Some? && w.run.value.mode.Incremental? then Lookup(w.run.value.windows, t) else None
  }

  function AllCandidates(w: World): bool {
    forall t :: w.tables.Of(t).mark.candidate.Some?
  }

  function Promoted(table: Table): Table { table.(mark := Promote(table.mark)) }

  function PromoteAll(tables: Tables): (r: Tables)
    ensures forall t :: r.Of(t) == Promoted(tables.Of(t))
  {
    Tables(Promoted(tables.products), Promoted(tables.orders), Promoted(tables.orderItems), Promoted(tables.payments))
  }

  /** `w` becomes `w'` by one step of the DAG, of the source, or of a failure. */
  ghost predicate Next(w: World, w': World, step: Step)
  {
    match step
    case Commit(t, k, row) =>
      && AboveCaptured(w.tables.Of(t), Pending(w, t), k, row.updatedAt)
      && w' == w.(tables := w.tables.With(t, w.tables.Of(t).(source := w.tables.Of(t).source[k := row])))
    case Delete(t, k) =>
      w' == w.(tables := w.tables.With(t, w.tables.Of(t).(source := w.tables.Of(t).source - {k})))
    case Start(params) =>
      && w.run.None?
      && ValidateRunConfig(params).Success?
      && w' == w.(run := Some(Run(ValidateRunConfig(params).value, map[], {}, false, {})))
    case Capture(t, window) =>
      && w.run.Some? && !w.run.value.validated
      && IsWindow(w.tables.Of(t), w.run.value.mode, window)
      && w' == w.(run := Some(w.run.value.(windows := w.run.value.windows[t := window])))
    case Load(t) =>
      && w.run.Some? && !w.run.value.validated && t in w.run.value.windows
      && w' == w.(tables := w.tables.With(t, Upsert(t, w.tables.Of(t), w.run.value.mode, w.run.value.windows[t])),
                  run := Some(w.run.value.(extracted := w.run.value.extracted + {t})))
    case Validate =>
      && w.run.Some? && AllIn(w.run.value.extracted) && Validated(w.tables)
      && w' == w.(run := Some(w.run.value.(validated := true)))
    case Publish(k) =>
      && k in w.tables.orders.staging
      && w' == w.(published := w.published + [StagedVersion(k, w.tables.orders.staging[k])])
    case Finish(sink) =>
      && w.run.Some? && w.run.value.validated
      && (sink == OrderTopic ==> Delivered(w.tables.orders, w.run.value.mode, w.published))
      && w' == w.(run := Some(w.run.value.(sinks := w.run.value.sinks + {sink})))
    case Barrier =>
      && w.run.Some? && w.run.value.sinks == ALL_SINKS
      && (w.run.value.mode.Incremental? ==> AllCandidates(w))
      && w' == w.(tables := if w.run.value.mode.Incremental? then PromoteAll(w.tables) else w.tables, run := None)
    case Abort =>
      w.run.Some? && w' == w.(run := None)
  }

  /** Before the first run nothing is staged and every source row is above its table's watermark. */
  ghost predicate Init(w: World) {
    && w.run.None? && w.published == []
    && forall t ::
         && w.tables.Of(t).staging == map[] && w.tables.Of(t).mark.candidate.None?
         && forall k :: k in w.tables.Of(t).source ==> w.tables.Of(t).mark.watermark < w.tables.Of(t).source[k].updatedAt
  }

  ghost predicate History(worlds: seq<World>, steps: seq<Step>) {
    && |worlds| == |steps| + 1
    && Init(worlds[0])
    && forall i :: 0 <= i < |steps| ==>
         Next(worlds[i], worlds[i + 1], steps[i])
  }

  /** A history goes on with any step that its last world allows. */
  lemma {:induction false} ExtendHistory(worlds: seq<World>, steps: seq<Step>, w: World, step: Step)
    requires History(worlds, steps) && Next(worlds[|steps|], w, step)
    ensures History(worlds + [w], steps + [step])
  {
    hide Next, Init;
    var worlds', steps' := worlds + [w], steps + [step];
    forall i | 0 <= i < |steps'| ensures Next(worlds'[i], worlds'[i + 1], steps'[i]) {
      if i < |steps| {
        assert Next(worlds[i], worlds[i + 1], steps[i]);
      }
    }
  }

  // ----- What every step keeps -----

  ghost predicate TablesInv(tables: Tables) {
    forall t :: TableInv(t, tables.Of(t))
  }

  /** Every staged order up to `bound` is in the topic as it is staged. */
  ghost predicate PublishedUpTo(orders: Table, published: seq<Version>, bound: int) {
    forall k :: k in orders.staging && orders.staging[k].updatedAt <= bound ==>
      StagedVersion(k, orders.staging[k]) in published
  }

  /** A published version is the staged one or an older one of a staged order. */
  ghost predicate StagingLeads(orders: Table, published: seq<Version>) {
    forall v :: v in published ==>
      && v.orderId in orders.staging
      && (v.updatedAt < orders.staging[v.orderId].updatedAt || v == StagedVersion(v.orderId, orders.staging[v.orderId]))
  }

  /** An order and a timestamp name one published version. */
  ghost predicate OneContent(published: seq<Version>) {
    forall v, v' :: v in published && v' in published && v.orderId == v'.orderId && v.updatedAt == v'.updatedAt ==>
      v == v'
  }

  ghost predicate RunInv(run: Run, tables: Tables, published: seq<Version>)
  {
    && (run.validated ==> AllIn(run.extracted))
    && (run.sinks != {} ==> run.validated)
    && (run.mode.Incremental? ==>
          && (forall t :: t in run.windows ==> run.windows[t].lower == tables.Of(t).mark.watermark)
          && (forall t :: t in run.extracted ==> tables.Of(t).mark.candidate.Some?)
          && (OrderTopic in run.sinks ==> Delivered(tables.orders, Incremental, published)))
  }

  ghost predicate WorldInv(w: World) {
    && TablesInv(w.tables)
    && PublishedUpTo(w.tables.orders, w.published, w.tables.orders.mark.watermark)
    && StagingLeads(w.tables.orders, w.published)
    && OneContent(w.published)
    && (w.run.Some? ==> RunInv(w.run.value, w.tables, w.published))
  }

  lemma {:induction false} InitInv(w: World)
    requires Init(w)
    ensures WorldInv(w)
  {
    hide Staged, ColumnMapping;
    forall t ensures TableInv(t, w.tables.Of(t)) {
      assert w.tables.Of(t).staging == map[];
    }
    assert w.tables.Of(Orders) == w.tables.orders;
  }

  lemma {:induction false} TablesKept(w: World, w': World, step: Step)
    requires WorldInv(w) && Next(w, w', step)
    ensures TablesInv(w'.tables)
  {
    hide TableInv, UpsertStaging, RaiseCandidate, Upsert, Promote, IsWindow, AboveCaptured, Validated, Delivered,
      PublishedUpTo, StagingLeads, OneContent;
    match step
    case Commit(t, k, row) => CommitInv(t, w.tables.Of(t), Pending(w, t), k, row);
    case Delete(t, k) => DeleteInv(t, w.tables.Of(t), k);
    case Load(t) => UpsertInv(t, w.tables.Of(t), w.run.value.mode, w.run.value.windows[t]);
    case Barrier =>
      forall t ensures TableInv(t, Promoted(w.tables.Of(t))) {
        PromoteInv(t, w.tables.Of(t));
      }
    case _ =>
  }

  /** A load never touches a published staged row that is already behind the watermark. */
  lemma {:induction false} LoadKeepsPublished(orders: Table, mode: Mode, window: Window, published: seq<Version>)
    requires TableInv(Orders, orders) && PublishedUpTo(orders, published, orders.mark.watermark)
    requires mode.Incremental? ==> window.lower == orders.mark.watermark
    ensures PublishedUpTo(Upsert(Orders, orders, mode, window), published, orders.mark.watermark)
  {
    hide Staged, ColumnMapping, UpsertStaging, StagedVersion;
    var after := Upsert(Orders, orders, mode, window);
    forall k | k in after.staging && after.staging[k].updatedAt <= orders.mark.watermark
      ensures StagedVersion(k, after.staging[k]) in published
    {
      UpsertedRow(Orders, orders.source, orders.staging, mode, window, k);
      StagedKeepsTime(Orders, orders.source, k);
      assert k in orders.staging && after.staging[k] == orders.staging[k];
    }
  }

  lemma {:induction false} StagedKeepsTime(t: TableName, source: map<Key, Row>, k: Key)
    ensures k in source ==> Staged(t, source[k]).updatedAt == source[k].updatedAt
  {
  }

  lemma {:induction false} LoadKeepsLead(orders: Table, mode: Mode, window: Window, published: seq<Version>)
    requires TableInv(Orders, orders) && StagingLeads(orders, published)
    ensures StagingLeads(Upsert(Orders, orders, mode, window), published)
  {
    hide Staged, ColumnMapping, UpsertStaging, StagedVersion, CapturedUpTo;
    var after := Upsert(Orders, orders, mode, window);
    forall v | v in published
      ensures v.orderId in after.staging
      ensures v.updatedAt < after.staging[v.orderId].updatedAt || v == StagedVersion(v.orderId, after.staging[v.orderId])
    {
      UpsertedRow(Orders, orders.source, orders.staging, mode, window, v.orderId);
      StagedKeepsTime(Orders, orders.source, v.orderId);
      VersionTime(v.orderId, orders.staging[v.orderId]);
    }
  }

  lemma {:induction false} VersionTime(k: Key, row: Row)
    ensures StagedVersion(k, row).updatedAt == row.updatedAt && StagedVersion(k, row).orderId == k
  {
  }

  lemma {:induction false} PublishKept(orders: Table, published: seq<Version>, k: Key)
    requires StagingLeads(orders, published) && OneContent(published) && k in orders.staging
    ensures var published' := published + [StagedVersion(k, orders.staging[k])];
      StagingLeads(orders, published') && OneContent(published')
  {
    hide StagedVersion;
    VersionTime(k, orders.staging[k]);
    var added := StagedVersion(k, orders.staging[k]);
    forall v | v in published && v.orderId == k && v.updatedAt == added.updatedAt ensures v == added {
      assert v.orderId in orders.staging;
    }
  }

  /** The barrier's promotion finds every staged order up to the candidate in the topic. */
  lemma {:induction false} BarrierPublished(orders: Table, published: seq<Version>)
    requires PublishedUpTo(orders, published, orders.mark.watermark)
    requires Delivered(orders, Incremental, published)
    ensures PublishedUpTo(orders, published, Promote(orders.mark).watermark)
  {
    hide StagedVersion;
  }

  lemma {:induction false} TopicKept(w: World, w': World, step: Step)
    requires WorldInv(w) && Next(w, w', step)
    ensures PublishedUpTo(w'.tables.orders, w'.published, w'.tables.orders.mark.watermark)
    ensures StagingLeads(w'.tables.orders, w'.published)
    ensures OneContent(w'.published)
  {
    hide TableInv, UpsertStaging, Promote, IsWindow, AboveCaptured, Validated, Delivered, StagedVersion;
    var orders := w.tables.orders;
    match step
    case Load(t) =>
      if t == Orders {
        LoadKeepsPublished(orders, w.run.value.mode, w.run.value.windows[t], w.published);
        LoadKeepsLead(orders, w.run.value.mode, w.run.value.windows[t], w.published);
      }
    case Publish(k) => PublishKept(orders, w.published, k);
    case Barrier =>
      if w.run.value.mode.Incremental? {
        BarrierPublished(orders, w.published);
      }
    case _ =>
  }

  lemma {:induction false} RunKept(w: World, w': World, step: Step)
    requires WorldInv(w) && Next(w, w', step)
    ensures w'.run.Some? ==> RunInv(w'.run.value, w'.tables, w'.published)
  {
    hide TableInv, UpsertStaging, Promote, IsSourceMax, AboveCaptured, Validated, StagedVersion,
      PublishedUpTo, StagingLeads, OneContent;
  }

  lemma {:induction false} NextInv(w: World, w': World, step: Step)
    requires WorldInv(w) && Next(w, w', step)
    ensures WorldInv(w')
  {
    hide TablesInv, Next, PublishedUpTo, StagingLeads, OneContent, RunInv;
    TablesKept(w, w', step);
    TopicKept(w, w', step);
    RunKept(w, w', step);
  }

  lemma {:induction false} HistoryInv(worlds: seq<World>, steps: seq<Step>, i: nat)
    requires History(worlds, steps) && i < |worlds|
    ensures WorldInv(worlds[i])
  {
    hide WorldInv, Next, Init;
    if i == 0 {
      InitInv(worlds[0]);
    } else {
      HistoryInv(worlds, steps, i - 1);
      assert Next(worlds[i - 1], worlds[i - 1 + 1], steps[i - 1]);
      NextInv(worlds[i - 1], worlds[i], steps[i - 1]);
    }
  }

  // ----- What follows for whole histories -----

  /** No source row is lost by a watermark: what it has passed is staged, in every state of every history. */
  lemma {:induction false} NoRowLost(worlds: seq<World>, steps: seq<Step>, i: nat, t: TableName, k: Key)
    requires History(worlds, steps) && i < |worlds|
    ensures var table := worlds[i].tables.Of(t);
      k in table.source && table.source[k].updatedAt <= table.mark.watermark ==>
        && k in table.staging && table.staging[k] == Staged(t, table.source[k])
        && Copies(t, table.staging[k], table.source[k])
  {
    hide Staged, ColumnMapping, Copies, Next, Init;
    HistoryInv(worlds, steps, i);
    if k in worlds[i].tables.Of(t).source {
      StagedCopies(t, worlds[i].tables.Of(t).source[k]);
    }
  }

  /** Only the barrier of an incremental run moves a watermark; it moves all four, forward, and clears the candidates. */
  lemma {:induction false} OnlyTheBarrierCommits(w: World, w': World, step: Step, t: TableName)
    requires WorldInv(w) && Next(w, w', step)
    ensures w'.tables.Of(t).mark.watermark >= w.tables.Of(t).mark.watermark
    ensures w'.tables.Of(t).mark.watermark != w.tables.Of(t).mark.watermark ==>
      && step == Barrier
      && w.run.value.mode == Incremental && w.run.value.sinks == ALL_SINKS
      && w.run.value.validated && AllIn(w.run.value.extracted)
    ensures step == Barrier && w.run.value.mode == Incremental ==>
      && w.tables.Of(t).mark.candidate.Some?
      && w'.tables.Of(t).mark == Mark(Max(w.tables.Of(t).mark.watermark, w.tables.Of(t).mark.candidate.value), None)
    ensures w.run.Some? && w.run.value.mode.Backfill? ==> w'.tables.Of(t).mark == w.tables.Of(t).mark
  {
    hide TableInv, UpsertStaging, IsWindow, AboveCaptured, Validated, Delivered, StagedVersion,
      PublishedUpTo, StagingLeads, OneContent;
  }

  lemma {:induction false} WatermarksNeverDecrease(worlds: seq<World>, steps: seq<Step>, i: nat, j: nat, t: TableName)
    requires History(worlds, steps) && i <= j < |worlds|
    ensures worlds[i].tables.Of(t).mark.watermark <= worlds[j].tables.Of(t).mark.watermark
    decreases j
  {
    hide WorldInv, Next, Init;
    HistoryInv(worlds, steps, i);
    if i < j {
      WatermarksNeverDecrease(worlds, steps, i, j - 1, t);
      HistoryInv(worlds, steps, j - 1);
      assert Next(worlds[j - 1], worlds[j - 1 + 1], steps[j - 1]);
      OnlyTheBarrierCommits(worlds[j - 1], worlds[j], steps[j - 1], t);
    }
  }

  /** Every staged order that the order watermark has passed was published as it is staged. */
  lemma {:induction false} CommittedOrdersArePublished(worlds: seq<World>, steps: seq<Step>, i: nat)
    requires History(worlds, steps) && i < |worlds|
    ensures var orders := worlds[i].tables.orders;
      PublishedUpTo(orders, worlds[i].published, orders.mark.watermark)
  {
    hide TableInv, Next, Init, PublishedUpTo, StagingLeads, OneContent, RunInv;
    HistoryInv(worlds, steps, i);
  }

  // ----- What the sinks read -----

  /** In every state in which sinks may run, no staged table is empty and no staged reference dangles. */
  lemma {:induction false} SinksSeeValidTables(worlds: seq<World>, steps: seq<Step>, i: nat)
    requires History(worlds, steps) && i < |worlds|
    requires worlds[i].run.Some? && worlds[i].run.value.validated
    ensures var tables := worlds[i].tables;
      && tables.products.staging != map[] && tables.orders.staging != map[]
      && tables.orderItems.staging != map[] && tables.payments.staging != map[]
      && (forall k :: k in tables.orderItems.staging ==>
            var columns := tables.orderItems.staging[k].columns;
            && "order_id" in columns && columns["order_id"] in tables.orders.staging
            && "product_id" in columns && columns["product_id"] in tables.products.staging)
      && (forall k :: k in tables.payments.staging ==>
            var columns := tables.payments.staging[k].columns;
            "order_id" in columns && columns["order_id"] in tables.orders.staging)
  {
    hide History, Next, Init;
    ValidatedStays(worlds, steps, i);
    assert worlds[i].tables.Of(Products).staging != map[] && worlds[i].tables.Of(Orders).staging != map[];
    assert worlds[i].tables.Of(OrderItems).staging != map[] && worlds[i].tables.Of(Payments).staging != map[];
  }

  lemma {:induction false} ValidatedStep(w: World, w': World, step: Step)
    requires Next(w, w', step) && w'.run.Some? && w'.run.value.validated
    requires w.run.Some? && w.run.value.validated ==> Validated(w.tables)
    ensures Validated(w'.tables)
  {
    hide Upsert, AboveCaptured, Delivered, StagedVersion, IsWindow, ValidateRunConfig, PromoteAll;
  }

  lemma {:induction false} ValidatedStays(worlds: seq<World>, steps: seq<Step>, i: nat)
    requires History(worlds, steps) && i < |worlds|
    ensures worlds[i].run.Some? && worlds[i].run.value.validated ==> Validated(worlds[i].tables)
  {
    hide Next, Validated;
    if i > 0 {
      ValidatedStays(worlds, steps, i - 1);
      assert Next(worlds[i - 1], worlds[i - 1 + 1], steps[i - 1]);
      if worlds[i].run.Some? && worlds[i].run.value.validated {
        ValidatedStep(worlds[i - 1], worlds[i], steps[i - 1]);
      }
    }
  }

  // ----- Aborted runs are made good -----

  /** Row `k` of the source of `t` is `row` in all worlds from `i` to `j`. */
  ghost predicate StaysInSource(worlds: seq<World>, i: nat, j: nat, t: TableName, k: Key, row: Row)
    requires i <= j < |worlds|
  {
    forall n :: i <= n <= j ==> Lookup(worlds[n].tables.Of(t).source, k) == Some(row)
  }

  /** As far as the active incremental run has come with `t`, it reaches up to `u`. */
  ghost predicate Reaches(w: World, t: TableName, u: int) {
    w.run.Some? && w.run.value.mode.Incremental? ==>
      && (t in w.run.value.windows ==> u <= w.run.value.windows[t].upper)
      && (t in w.run.value.extracted ==>
            w.tables.Of(t).mark.candidate.Some? && u <= w.tables.Of(t).mark.candidate.value)
  }

  lemma {:induction false} ReachesKept(w: World, w': World, step: Step, t: TableName, k: Key)
    requires Next(w, w', step) && k in w.tables.Of(t).source
    requires Reaches(w, t, w.tables.Of(t).source[k].updatedAt)
    ensures Reaches(w', t, w.tables.Of(t).source[k].updatedAt)
  {
    hide AboveCaptured, Validated, Delivered, StagedVersion, UpsertStaging;
  }

  lemma {:induction false} StaysShorter(worlds: seq<World>, i: nat, j: nat, t: TableName, k: Key, row: Row)
    requires i < j < |worlds| && StaysInSource(worlds, i, j, t, k, row)
    ensures StaysInSource(worlds, i, j - 1, t, k, row)
    ensures k in worlds[j - 1].tables.Of(t).source && worlds[j - 1].tables.Of(t).source[k] == row
  {
    assert Lookup(worlds[j - 1].tables.Of(t).source, k) == Some(row);
  }

  lemma {:induction false} StepOf(worlds: seq<World>, steps: seq<Step>, i: nat)
    requires History(worlds, steps) && i < |steps|
    ensures Next(worlds[i], worlds[i + 1], steps[i])
  {
    hide Next, Init;
  }

  lemma {:induction false} ReachesAtRest(w: World, t: TableName, u: int)
    requires w.run.None?
    ensures Reaches(w, t, u)
  {
  }

  lemma {:induction false} ReachesInTime(
      worlds: seq<World>, steps: seq<Step>, i: nat, j: nat, t: TableName, k: Key, row: Row)
    requires History(worlds, steps) && i <= j < |worlds| && worlds[i].run.None?
    requires StaysInSource(worlds, i, j, t, k, row)
    ensures Reaches(worlds[j], t, row.updatedAt)
  {
    hide Reaches, StaysInSource, Next, Init;
    if i == j {
      ReachesAtRest(worlds[i], t, row.updatedAt);
    } else {
      StaysShorter(worlds, i, j, t, k, row);
      ReachesInTime(worlds, steps, i, j - 1, t, k, row);
      StepOf(worlds, steps, j - 1);
      ReachesKept(worlds[j - 1], worlds[j], steps[j - 1], t, k);
    }
  }

  /** The watermark after an incremental barrier reaches what its run reached. */
  lemma {:induction false} BarrierReaches(w: World, w': World, t: TableName, u: int)
    requires WorldInv(w) && Next(w, w', Barrier) && w.run.value.mode.Incremental? && Reaches(w, t, u)
    ensures u <= w'.tables.Of(t).mark.watermark
  {
    hide TableInv, PublishedUpTo, StagingLeads, OneContent, Delivered;
  }

  /**
   * Nothing is lost with an aborted run. A source row that is there when no run is active,
   * for example after an abort, and stays there, is behind the watermark, staged and (an
   * order) published as soon as an incremental barrier succeeds, whatever failed in between.
   */
  lemma {:induction false} AbortedRunIsRetried(
      worlds: seq<World>, steps: seq<Step>, i: nat, j: nat, t: TableName, k: Key, row: Row)
    requires History(worlds, steps) && i <= j < |steps| && worlds[i].run.None?
    requires StaysInSource(worlds, i, j + 1, t, k, row)
    requires steps[j] == Barrier && worlds[j].run.Some? && worlds[j].run.value.mode.Incremental?
    ensures var table := worlds[j + 1].tables.Of(t);
      && row.updatedAt <= table.mark.watermark
      && k in table.staging && table.staging[k] == Staged(t, row) && Copies(t, table.staging[k], row)
    ensures t == Orders ==> StagedVersion(k, Staged(Orders, row)) in worlds[j + 1].published
  {
    hide Next, Init, WorldInv, Reaches, Staged, Copies, StagedVersion;
    assert StaysInSource(worlds, i, j, t, k, row);
    ReachesInTime(worlds, steps, i, j, t, k, row);
    HistoryInv(worlds, steps, j);
    assert Next(worlds[j], worlds[j + 1], steps[j]);
    BarrierReaches(worlds[j], worlds[j + 1], t, row.updatedAt);
    assert Lookup(worlds[j + 1].tables.Of(t).source, k) == Some(row);
    NoRowLost(worlds, steps, j + 1, t, k);
    CommittedOrdersArePublished(worlds, steps, j + 1);
    StagedKeepsTime(t, worlds[j + 1].tables.Of(t).source, k);
  }
}
