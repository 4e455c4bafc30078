/**
 * Runs that nothing disturbs: from every reachable world in which no run is active, an
 * incremental run can go through to its barrier if the staged tables pass validation. With
 * it, a reachable world whose candidate lies below its watermark.
 */
module CommittedRuns {
  import opened Prelude
  import opened Watermarks
  import opened WatermarkRuns
  import opened OrderEvents
  import opened PipelineTasks

  const ALL_TABLES := {Products, Orders, OrderItems, Payments}

  /** One captured window per polled table. */
  datatype Windows = Windows(products: Window, orders: Window, orderItems: Window, payments: Window) {
    function Of(t: TableName): Window {
      match t
      case Products => products
      case Orders => orders
      case OrderItems => orderItems
      case Payments => payments
    }

    function AsMap(): map<TableName, Window> {
      map[Products := products, Orders := orders, OrderItems := orderItems, Payments := payments]
    }
  }

  /** The tables after all four extracts of an incremental run. */
  function LoadedTables(tables: Tables, ws: Windows): Tables {
    Tables(
      Upsert(Products, tables.products, Incremental, ws.products),
      Upsert(Orders, tables.orders, Incremental, ws.orders),
      Upsert(OrderItems, tables.orderItems, Incremental, ws.orderItems),
      Upsert(Payments, tables.payments, Incremental, ws.payments))
  }

  lemma {:induction false} LoadedOf(tables: Tables, ws: Windows, t: TableName)
    ensures LoadedTables(tables, ws).Of(t) == Upsert(t, tables.Of(t), Incremental, ws.Of(t))
  {
    hide Upsert;
    match t
    case Products =>
    case Orders =>
    case OrderItems =>
    case Payments =>
  }

  /** A history that ends in `w`. */
  ghost predicate EndsIn(worlds: seq<World>, steps: seq<Step>, w: World) {
    History(worlds, steps) && worlds[|steps|] == w
  }

  lemma {:induction false} OneStep(worlds: seq<World>, steps: seq<Step>, w: World, next: World, step: Step)
    returns (worlds': seq<World>, steps': seq<Step>)
    requires EndsIn(worlds, steps, w) && Next(w, next, step)
    ensures EndsIn(worlds', steps', next) && worlds <= worlds'
  {
    hide Next, Init;
    ExtendHistory(worlds, steps, next, step);
    worlds', steps' := worlds + [next], steps + [step];
  }

  // ----- The phases of a run -----

  lemma {:induction false} Begin(worlds: seq<World>, steps: seq<Step>, w: World)
    returns (worlds': seq<World>, steps': seq<Step>, w': World)
    requires EndsIn(worlds, steps, w) && w.run.None?
    ensures EndsIn(worlds', steps', w') && worlds <= worlds'
    ensures w' == w.(run := Some(Run(Incremental, map[], {}, false, {})))
  {
    hide EndsIn;
    w' := w.(run := Some(Run(Incremental, map[], {}, false, {})));
    worlds', steps' := OneStep(worlds, steps, w, w', Start(Params(false, None, None)));
  }

  lemma {:induction false} CaptureOne(worlds: seq<World>, steps: seq<Step>, w: World, t: TableName, window: Window)
    returns (worlds': seq<World>, steps': seq<Step>, w': World)
    requires EndsIn(worlds, steps, w)
    requires w.run.Some? && !w.run.value.validated && IsWindow(w.tables.Of(t), w.run.value.mode, window)
    ensures EndsIn(worlds', steps', w') && worlds <= worlds'
    ensures w' == w.(run := Some(w.run.value.(windows := w.run.value.windows[t := window])))
  {
    hide EndsIn, IsWindow;
    w' := w.(run := Some(w.run.value.(windows := w.run.value.windows[t := window])));
    worlds', steps' := OneStep(worlds, steps, w, w', Capture(t, window));
  }

  lemma {:induction false} CaptureAll(worlds: seq<World>, steps: seq<Step>, w: World, ws: Windows)
    returns (worlds': seq<World>, steps': seq<Step>, w': World)
    requires EndsIn(worlds, steps, w) && w.run.None?
    requires forall t :: IsWindow(w.tables.Of(t), Incremental, ws.Of(t))
    ensures EndsIn(worlds', steps', w') && worlds <= worlds'
    ensures w' == w.(run := Some(Run(Incremental, ws.AsMap(), {}, false, {})))
  {
    hide EndsIn, IsWindow;
    worlds', steps', w' := Begin(worlds, steps, w);
    worlds', steps', w' := CaptureOne(worlds', steps', w', Products, ws.Of(Products));
    worlds', steps', w' := CaptureOne(worlds', steps', w', Orders, ws.Of(Orders));
    worlds', steps', w' := CaptureOne(worlds', steps', w', OrderItems, ws.Of(OrderItems));
    worlds', steps', w' := CaptureOne(worlds', steps', w', Payments, ws.Of(Payments));
    assert map[][Products := ws.products][Orders := ws.orders][OrderItems := ws.orderItems][Payments := ws.payments]
      == ws.AsMap();
  }

  lemma {:induction false} LoadOne(worlds: seq<World>, steps: seq<Step>, w: World, t: TableName, window: Window)
    returns (worlds': seq<World>, steps': seq<Step>, w': World)
    requires EndsIn(worlds, steps, w)
    requires w.run.Some? && !w.run.value.validated && w.run.value.mode == Incremental
    requires t in w.run.value.windows && w.run.value.windows[t] == window
    ensures EndsIn(worlds', steps', w') && worlds <= worlds'
    ensures w' == w.(tables := w.tables.With(t, Upsert(t, w.tables.Of(t), Incremental, window)),
                     run := Some(w.run.value.(extracted := w.run.value.extracted + {t})))
  {
    hide EndsIn, Upsert;
    w' := w.(tables := w.tables.With(t, Upsert(t, w.tables.Of(t), Incremental, window)),
             run := Some(w.run.value.(extracted := w.run.value.extracted + {t})));
    worlds', steps' := OneStep(worlds, steps, w, w', Load(t));
  }

  lemma {:induction false} LoadAll(worlds: seq<World>, steps: seq<Step>, w: World, ws: Windows)
    returns (worlds': seq<World>, steps': seq<Step>, w': World)
    requires EndsIn(worlds, steps, w)
    requires w.run == Some(Run(Incremental, ws.AsMap(), {}, false, {}))
    ensures EndsIn(worlds', steps', w') && worlds <= worlds'
    ensures w' == w.(tables := LoadedTables(w.tables, ws),
                     run := Some(Run(Incremental, ws.AsMap(), ALL_TABLES, false, {})))
  {
    hide EndsIn, Upsert;
    worlds', steps', w' := LoadOne(worlds, steps, w, Products, ws.products);
    worlds', steps', w' := LoadOne(worlds', steps', w', Orders, ws.orders);
    worlds', steps', w' := LoadOne(worlds', steps', w', OrderItems, ws.orderItems);
    worlds', steps', w' := LoadOne(worlds', steps', w', Payments, ws.payments);
    assert {} + {Products} + {Orders} + {OrderItems} + {Payments} == ALL_TABLES;
  }

  /** The publish task appends every order of `keys`. */
  lemma {:induction false} PublishAll(worlds: seq<World>, steps: seq<Step>, w: World, keys: set<Key>)
    returns (worlds': seq<World>, steps': seq<Step>, w': World)
    requires EndsIn(worlds, steps, w) && keys <= w.tables.orders.staging.Keys
    ensures EndsIn(worlds', steps', w') && worlds <= worlds'
    ensures w' == w.(published := w'.published)
    ensures forall v :: v in w.published ==> v in w'.published
    ensures forall k :: k in keys ==> StagedVersion(k, w.tables.orders.staging[k]) in w'.published
    decreases |keys|
  {
    hide EndsIn, StagedVersion;
    if keys == {} {
      worlds', steps', w' := worlds, steps, w;
    } else {
      var k :| k in keys;
      var one := w.(published := w.published + [StagedVersion(k, w.tables.orders.staging[k])]);
      worlds', steps' := OneStep(worlds, steps, w, one, Publish(k));
      worlds', steps', w' := PublishAll(worlds', steps', one, keys - {k});
      forall j | j in keys ensures StagedVersion(j, w.tables.orders.staging[j]) in w'.published {
        if j == k {
          assert StagedVersion(k, w.tables.orders.staging[k]) in one.published;
        }
      }
    }
  }

  lemma {:induction false} FinishOne(worlds: seq<World>, steps: seq<Step>, w: World, sink: Sink)
    returns (worlds': seq<World>, steps': seq<Step>, w': World)
    requires EndsIn(worlds, steps, w)
    requires w.run.Some? && w.run.value.validated && Delivered(w.tables.orders, w.run.value.mode, w.published)
    ensures EndsIn(worlds', steps', w') && worlds <= worlds'
    ensures w' == w.(run := Some(w.run.value.(sinks := w.run.value.sinks + {sink})))
  {
    hide EndsIn, Delivered;
    w' := w.(run := Some(w.run.value.(sinks := w.run.value.sinks + {sink})));
    worlds', steps' := OneStep(worlds, steps, w, w', Finish(sink));
  }

  lemma {:induction false} IsTable(t: TableName)
    ensures t in ALL_TABLES
  {
    match t
    case Products =>
    case Orders =>
    case OrderItems =>
    case Payments =>
  }

  lemma {:induction false} EveryTable()
    ensures AllIn(ALL_TABLES)
  {
    forall t: TableName ensures t in ALL_TABLES {
      IsTable(t);
    }
  }

  /** From loaded and valid tables to the barrier. */
  lemma {:induction false} FinishAll(worlds: seq<World>, steps: seq<Step>, w: World, windows: map<TableName, Window>)
    returns (worlds': seq<World>, steps': seq<Step>, w': World)
    requires EndsIn(worlds, steps, w)
    requires w.run == Some(Run(Incremental, windows, ALL_TABLES, false, {}))
    requires Validated(w.tables) && AllCandidates(w)
    requires Delivered(w.tables.orders, Incremental, w.published)
    ensures EndsIn(worlds', steps', w') && worlds <= worlds'
    ensures w' == w.(tables := PromoteAll(w.tables), run := None)
  {
    hide EndsIn, Delivered, Validated, AllIn, Promote;
    EveryTable();
    var valid := w.(run := Some(w.run.value.(validated := true)));
    worlds', steps' := OneStep(worlds, steps, w, valid, Validate);
    worlds', steps', w' := FinishOne(worlds', steps', valid, Dbt);
    worlds', steps', w' := FinishOne(worlds', steps', w', Iceberg);
    worlds', steps', w' := FinishOne(worlds', steps', w', OrderTopic);
    assert {} + {Dbt} + {Iceberg} + {OrderTopic} == ALL_SINKS;
    var last := w';
    w' := w.(tables := PromoteAll(w.tables), run := None);
    worlds', steps' := OneStep(worlds', steps', last, w', Barrier);
  }

  /** The orders of the publisher's window. */
  function WindowKeys(orders: Table, w: Window): set<Key> {
    set k | k in orders.staging && InWindow(Incremental, w, orders.staging[k].updatedAt)
  }

  lemma {:induction false} LoadedHasCandidate(tables: Tables, ws: Windows)
    ensures forall t :: LoadedTables(tables, ws).Of(t).mark.candidate.Some?
    ensures LoadedTables(tables, ws).orders.mark.candidate.Some?
  {
    hide UpsertStaging, LoadedTables;
    forall t ensures LoadedTables(tables, ws).Of(t).mark.candidate.Some? {
      LoadedOf(tables, ws, t);
    }
    assert LoadedTables(tables, ws).Of(Orders) == LoadedTables(tables, ws).orders;
  }

  /** What a committed extract has caught up with: all of the source. */
  ghost predicate CaughtUpWithSource(t: TableName, table: Table) {
    forall k :: k in table.source ==>
      && table.source[k].updatedAt <= table.mark.watermark
      && k in table.staging && table.staging[k] == Staged(t, table.source[k])
  }

  lemma {:induction false} PromotedCatchesUp(t: TableName, table: Table, w: Window)
    requires TableInv(t, table) && IsWindow(table, Incremental, w)
    ensures CaughtUpWithSource(t, Promoted(Upsert(t, table, Incremental, w)))
  {
    hide Staged, ColumnMapping, UpsertStaging, TableInv;
    ExtractCapturesSource(t, table, w);
  }

  lemma {:induction false} RunCatchesUp(tables: Tables, ws: Windows)
    requires forall t :: TableInv(t, tables.Of(t)) && IsWindow(tables.Of(t), Incremental, ws.Of(t))
    ensures forall t :: CaughtUpWithSource(t, PromoteAll(LoadedTables(tables, ws)).Of(t))
  {
    hide TableInv, IsWindow, CaughtUpWithSource, Upsert, LoadedTables;
    forall t ensures CaughtUpWithSource(t, PromoteAll(LoadedTables(tables, ws)).Of(t)) {
      LoadedOf(tables, ws, t);
      PromotedCatchesUp(t, tables.Of(t), ws.Of(t));
    }
  }

  /**
   * An undisturbed run commits. From every reachable world without an active run, whatever was
   * aborted before, an incremental run can reach its barrier if the loaded tables are valid;
   * then all of every source is staged and behind its watermark.
   */
  lemma {:induction false} UndisturbedRunCommits(worlds: seq<World>, steps: seq<Step>, w: World, ws: Windows)
    returns (worlds': seq<World>, steps': seq<Step>, w': World)
    requires EndsIn(worlds, steps, w) && w.run.None?
    requires forall t :: IsWindow(w.tables.Of(t), Incremental, ws.Of(t))
    requires Validated(LoadedTables(w.tables, ws))
    ensures EndsIn(worlds', steps', w') && worlds <= worlds'
    ensures w'.tables == PromoteAll(LoadedTables(w.tables, ws)) && w'.run.None?
    ensures forall t :: CaughtUpWithSource(t, w'.tables.Of(t))
  {
    hide EndsIn, IsWindow, Validated, Upsert, Promote, StagedVersion, InWindow, TableInv, CaughtUpWithSource;
    forall t ensures TableInv(t, w.tables.Of(t)) { EndIsReachable(worlds, steps, w, t); }
    RunCatchesUp(w.tables, ws);
    var loaded := LoadedTables(w.tables, ws);
    LoadedHasCandidate(w.tables, ws);
    var window := PublishWindow(Incremental, loaded.orders.mark).value;
    worlds', steps', w' := CaptureAll(worlds, steps, w, ws);
    worlds', steps', w' := LoadAll(worlds', steps', w', ws);
    worlds', steps', w' := PublishAll(worlds', steps', w', WindowKeys(loaded.orders, window));
    assert forall k :: k in WindowKeys(loaded.orders, window) ==> StagedVersion(k, loaded.orders.staging[k]) in w'.published;
    worlds', steps', w' := FinishAll(worlds', steps', w', ws.AsMap());
  }

  // ----- A candidate below its watermark -----

  /**
   * Deleting the only source row that reaches the watermark makes the next extract prepare a
   * candidate below it, in every history that gets there.
   */
  lemma {:induction false} DeleteLowersCandidate(worlds: seq<World>, steps: seq<Step>, w: World, t: TableName, k: Key)
    returns (worlds': seq<World>, steps': seq<Step>, w': World)
    requires EndsIn(worlds, steps, w) && w.run.None?
    requires var was := w.tables.Of(t);
      && k in was.source && was.source - {k} != map[] && was.mark.candidate.None?
      && forall j :: j in was.source - {k} ==> was.source[j].updatedAt < was.mark.watermark
    ensures EndsIn(worlds', steps', w') && worlds <= worlds'
    ensures w'.run.Some? && w'.tables == w.tables.With(t, w'.tables.Of(t))
    ensures var was, table := w.tables.Of(t), w'.tables.Of(t);
      && TableInv(t, table)
      && table.source == was.source - {k} && table.staging == was.staging
      && table.mark.watermark == was.mark.watermark
      && table.mark.candidate.Some? && table.mark.candidate.value < table.mark.watermark
  {
    hide EndsIn, TableInv, UpsertStaging;
    var was := w.tables.Of(t);
    var rest := was.(source := was.source - {k});
    var deleted := w.(tables := w.tables.With(t, rest));
    worlds', steps' := OneStep(worlds, steps, w, deleted, Delete(t, k));
    worlds', steps', w' := Begin(worlds', steps', deleted);
    var newest := NewestOf(rest.source, rest.mark.watermark);
    var window := Window(rest.mark.watermark, newest);
    worlds', steps', w' := CaptureOne(worlds', steps', w', t, window);
    NothingToStage(t, rest, window);
    worlds', steps', w' := LoadOne(worlds', steps', w', t, window);
    EndIsReachable(worlds', steps', w', t);
    var table := w'.tables.Of(t);
    WithTwice(w.tables, t, rest, table);
  }

  lemma {:induction false} WithTwice(tables: Tables, t: TableName, a: Table, b: Table)
    ensures tables.With(t, a).With(t, b) == tables.With(t, b)
  {
  }

  lemma {:induction false} EndIsReachable(worlds: seq<World>, steps: seq<Step>, w: World, t: TableName)
    requires EndsIn(worlds, steps, w)
    ensures TableInv(t, w.tables.Of(t))
  {
    hide WorldInv, TableInv, Next, Init;
    HistoryInv(worlds, steps, |steps|);
    TablesOfWorld(w, t);
  }

  lemma {:induction false} TablesOfWorld(w: World, t: TableName)
    requires WorldInv(w)
    ensures TableInv(t, w.tables.Of(t))
  {
    hide TableInv, PublishedUpTo, StagingLeads, OneContent, RunInv;
  }

  lemma {:induction false} NewestOf(source: map<Key, Row>, lower: int) returns (m: int)
    requires source != map[]
    ensures IsSourceMax(source, lower, m)
    ensures exists k :: k in source && source[k].updatedAt == m
  {
    var times := set k | k in source :: source[k].updatedAt;
    var k :| k in source;
    assert forall j :: j in source ==> source[j].updatedAt in times;
    NewestTimeExists(times, source[k].updatedAt);
    m :| m in times && forall u :: u in times ==> u <= m;
  }

  lemma {:induction false} NothingToStage(t: TableName, table: Table, w: Window)
    requires w.upper <= w.lower
    ensures UpsertStaging(t, table.source, table.staging, Incremental, w) == table.staging
  {
    hide UpsertStaging, Staged;
    var after := UpsertStaging(t, table.source, table.staging, Incremental, w);
    forall k ensures Lookup(after, k) == Lookup(table.staging, k) {
      UpsertedRow(t, table.source, table.staging, Incremental, w, k);
    }
    SameLookups(after, table.staging);
  }

  // ----- A history in which it happens -----

  function FirstTable(source: map<Key, Row>): Table { Table(source, map[], Mark(0, None)) }

  /** Two products, and an order of the older one with an item and a payment. */
  const FIRST_TABLES := Tables(
    FirstTable(map["old" := Row(1, map[]), "new" := Row(2, map[])]),
    FirstTable(map["order" := Row(1, map[])]),
    FirstTable(map["item" := Row(1, map["order_id" := "order", "product_id" := "old"])]),
    FirstTable(map["payment" := Row(1, map["order_id" := "order"])]))

  const FIRST_WINDOWS := Windows(Window(0, 2), Window(0, 1), Window(0, 1), Window(0, 1))

  const NEXT_WINDOWS := Windows(Window(2, 1), Window(1, 1), Window(1, 1), Window(1, 1))

  /** The staged rows of a first extract that reaches the whole source. */
  lemma {:induction false} FirstExtract(t: TableName, table: Table, w: Window, k: Key)
    requires table.staging == map[]
    requires forall j :: j in table.source ==> InWindow(Incremental, w, table.source[j].updatedAt)
    ensures Lookup(Upsert(t, table, Incremental, w).staging, k) ==
      if k in table.source then Some(Staged(t, table.source[k])) else None
  {
    hide UpsertStaging, Staged, ColumnMapping;
    UpsertedRow(t, table.source, table.staging, Incremental, w, k);
  }

  lemma {:induction false} FirstStaging(k: Key)
    ensures var tables := LoadedTables(FIRST_TABLES, FIRST_WINDOWS);
      && (k in tables.products.staging <==> k in {"old", "new"})
      && (k in tables.orders.staging <==> k == "order")
      && (k in tables.orderItems.staging <==> k == "item")
      && (k in tables.payments.staging <==> k == "payment")
  {
    hide Upsert, Staged, ColumnMapping;
    FirstExtract(Products, FIRST_TABLES.products, FIRST_WINDOWS.products, k);
    FirstExtract(Orders, FIRST_TABLES.orders, FIRST_WINDOWS.orders, k);
    FirstExtract(OrderItems, FIRST_TABLES.orderItems, FIRST_WINDOWS.orderItems, k);
    FirstExtract(Payments, FIRST_TABLES.payments, FIRST_WINDOWS.payments, k);
  }

  lemma {:induction false} FirstReferences()
    ensures var tables := LoadedTables(FIRST_TABLES, FIRST_WINDOWS);
      && Lookup(tables.orderItems.staging, "item")
         == Some(Row(1, map["order_id" := "order", "product_id" := "old"]))
      && Lookup(tables.payments.staging, "payment") == Some(Row(1, map["order_id" := "order"]))
  {
    hide Upsert;
    FirstExtract(OrderItems, FIRST_TABLES.orderItems, FIRST_WINDOWS.orderItems, "item");
    FirstExtract(Payments, FIRST_TABLES.payments, FIRST_WINDOWS.payments, "payment");
    ItemImage();
    PaymentImage();
  }

  lemma {:induction false} ItemImage()
    ensures var columns := map["order_id" := "order", "product_id" := "old"];
      Staged(OrderItems, Row(1, columns)) == Row(1, columns)
  {
    var columns := map["order_id" := "order", "product_id" := "old"];
    assert Staged(OrderItems, Row(1, columns)).columns == columns;
  }

  lemma {:induction false} PaymentImage()
    ensures var columns := map["order_id" := "order"];
      Staged(Payments, Row(1, columns)) == Row(1, columns)
  {
    var columns := map["order_id" := "order"];
    assert Staged(Payments, Row(1, columns)).columns == columns;
  }

  lemma {:induction false} FirstIsValid()
    ensures Validated(LoadedTables(FIRST_TABLES, FIRST_WINDOWS))
  {
    hide Upsert, LoadedTables;
    var tables := LoadedTables(FIRST_TABLES, FIRST_WINDOWS);
    FirstReferences();
    forall k ensures
      && (k in tables.products.staging <==> k in {"old", "new"})
      && (k in tables.orders.staging <==> k == "order")
      && (k in tables.orderItems.staging <==> k == "item")
      && (k in tables.payments.staging <==> k == "payment")
    {
      FirstStaging(k);
    }
    assert "old" in tables.products.staging && "order" in tables.orders.staging;
    forall t ensures tables.Of(t).staging != map[] {
      match t
      case Products => assert "old" in tables.Of(t).staging;
      case Orders => assert "order" in tables.Of(t).staging;
      case OrderItems => assert "item" in tables.Of(t).staging;
      case Payments => assert "payment" in tables.Of(t).staging;
    }
  }

  lemma {:induction false} OneRowMax(source: map<Key, Row>, lower: int, k: Key)
    requires k in source && forall j :: j in source ==> source[j].updatedAt <= source[k].updatedAt
    ensures IsSourceMax(source, lower, source[k].updatedAt)
  {
  }

  lemma {:induction false} FirstWindowsFit()
    ensures forall t :: IsWindow(FIRST_TABLES.Of(t), Incremental, FIRST_WINDOWS.Of(t))
  {
    hide IsSourceMax;
    OneRowMax(FIRST_TABLES.products.source, 0, "new");
    OneRowMax(FIRST_TABLES.orders.source, 0, "order");
    OneRowMax(FIRST_TABLES.orderItems.source, 0, "item");
    OneRowMax(FIRST_TABLES.payments.source, 0, "payment");
    forall t ensures IsWindow(FIRST_TABLES.Of(t), Incremental, FIRST_WINDOWS.Of(t)) {
      match t
      case Products =>
      case Orders =>
      case OrderItems =>
      case Payments =>
    }
  }

  /** The tables after the first committed run. */
  lemma {:induction false} AfterFirstRun() returns (worlds: seq<World>, steps: seq<Step>, w: World)
    ensures EndsIn(worlds, steps, w) && w.run.None?
    ensures w.tables == PromoteAll(LoadedTables(FIRST_TABLES, FIRST_WINDOWS))
  {
    hide LoadedTables, Validated, IsWindow, PromoteAll;
    var first := World(FIRST_TABLES, None, []);
    forall t ensures FIRST_TABLES.Of(t).staging == map[] && FIRST_TABLES.Of(t).mark == Mark(0, None) {
      match t
      case Products =>
      case Orders =>
      case OrderItems =>
      case Payments =>
    }
    FirstRowsAreNew();
    assert Init(first);
    assert EndsIn([first], [], first);
    FirstIsValid();
    FirstWindowsFit();
    worlds, steps, w := UndisturbedRunCommits([first], [], first, FIRST_WINDOWS);
  }

  lemma {:induction false} FirstRowsAreNew()
    ensures forall t, k :: k in FIRST_TABLES.Of(t).source ==> 0 < FIRST_TABLES.Of(t).source[k].updatedAt
  {
    forall t, k | k in FIRST_TABLES.Of(t).source ensures 0 < FIRST_TABLES.Of(t).source[k].updatedAt {
      match t
      case Products =>
      case Orders =>
      case OrderItems =>
      case Payments =>
    }
  }

  /** A second extract of the first tables without the newest product finds nothing to stage. */
  lemma {:induction false} NextRunIsValid(tables: Tables)
    requires var first := PromoteAll(LoadedTables(FIRST_TABLES, FIRST_WINDOWS));
      && tables == first.With(Products, tables.products)
      && tables.products.source == first.products.source - {"new"}
      && tables.products.staging == first.products.staging && tables.products.mark.watermark == 2
    ensures forall t :: IsWindow(tables.Of(t), Incremental, NEXT_WINDOWS.Of(t))
    ensures Validated(LoadedTables(tables, NEXT_WINDOWS))
  {
    hide UpsertStaging, IsSourceMax, Validated;
    assert tables.products.source == map["old" := Row(1, map[])];
    OneRowMax(tables.products.source, 2, "old");
    OneRowMax(tables.orders.source, 1, "order");
    OneRowMax(tables.orderItems.source, 1, "item");
    OneRowMax(tables.payments.source, 1, "payment");
    forall t ensures IsWindow(tables.Of(t), Incremental, NEXT_WINDOWS.Of(t)) {
      match t
      case Products =>
      case Orders =>
      case OrderItems =>
      case Payments =>
    }
    NothingToStage(Products, tables.products, NEXT_WINDOWS.products);
    NothingToStage(Orders, tables.orders, NEXT_WINDOWS.orders);
    NothingToStage(OrderItems, tables.orderItems, NEXT_WINDOWS.orderItems);
    NothingToStage(Payments, tables.payments, NEXT_WINDOWS.payments);
    FirstIsValid();
    SameStagingIsValid(LoadedTables(FIRST_TABLES, FIRST_WINDOWS), LoadedTables(tables, NEXT_WINDOWS));
  }

  lemma {:induction false} SameStagingIsValid(a: Tables, b: Tables)
    requires Validated(a)
    requires a.products.staging == b.products.staging && a.orders.staging == b.orders.staging
    requires a.orderItems.staging == b.orderItems.staging && a.payments.staging == b.payments.staging
    ensures Validated(b)
  {
    hide Refers;
    forall t ensures b.Of(t).staging != map[] {
      assert a.Of(t).staging != map[];
      match t
      case Products =>
      case Orders =>
      case OrderItems =>
      case Payments =>
    }
  }

  lemma {:induction false} StopRun(worlds: seq<World>, steps: seq<Step>, w: World)
    returns (worlds': seq<World>, steps': seq<Step>, w': World)
    requires EndsIn(worlds, steps, w) && w.run.Some?
    ensures EndsIn(worlds', steps', w') && worlds <= worlds' && w' == w.(run := None)
  {
    hide EndsIn;
    w' := w.(run := None);
    worlds', steps' := OneStep(worlds, steps, w, w', Abort);
  }

  /**
   * A reachable world whose product candidate lies below the product watermark, after a source
   * delete; the next barrier promotes it, and the watermark stays.
   */
  lemma {:induction false} CandidateCanFall() returns (worlds: seq<World>, steps: seq<Step>, i: nat)
    ensures History(worlds, steps) && i < |steps|
    ensures var products := worlds[i].tables.products;
      && TableInv(Products, products)
      && products.mark.candidate.Some? && products.mark.candidate.value < products.mark.watermark
    ensures worlds[|steps|].run.None?
    ensures worlds[|steps|].tables.products.mark == Mark(worlds[i].tables.products.mark.watermark, None)
  {
    hide TableInv, LoadedTables, Validated, IsWindow, CaughtUpWithSource;
    var w: World;
    worlds, steps, w := AfterFirstRun();
    FirstProducts();
    worlds, steps, w := DeleteLowersCandidate(worlds, steps, w, Products, "new");
    i := |steps|;
    var fallen, before := w, worlds;
    assert worlds[i] == fallen;
    worlds, steps, w := StopRun(worlds, steps, w);
    NextRunIsValid(w.tables);
    worlds, steps, w := UndisturbedRunCommits(worlds, steps, w, NEXT_WINDOWS);
    LoadedOf(fallen.tables, NEXT_WINDOWS, Products);
    assert worlds[i] == before[i];
    LongerHistory(before, worlds, steps, i);
  }

  lemma {:induction false} LongerHistory(before: seq<World>, worlds: seq<World>, steps: seq<Step>, i: nat)
    requires before <= worlds && i < |before| && |worlds| == |steps| + 1
    requires worlds[|steps|].run.None? && before[i].run.Some?
    ensures i < |steps|
  {
    assert worlds[i] == before[i];
  }

  lemma {:induction false} FirstProducts()
    ensures var products := PromoteAll(LoadedTables(FIRST_TABLES, FIRST_WINDOWS)).products;
      && products.mark == Mark(2, None)
      && products.source == FIRST_TABLES.products.source
      && products.source - {"new"} == map["old" := Row(1, map[])] != map[]
  {
    hide UpsertStaging;
    assert "old" in map["old" := Row(1, map[])];
  }
}
