/**
 * Whole histories of the marts: staging loads, fact runs, daily runs and lakehouse jobs in
 * any order, each of them skipped or failed any number of times.
 */
module MartRuns {
  import opened Aggregates
  import opened Prelude
  import opened SalesView
  import opened TemporalJoin
  import opened FactSales
  import opened DailySales
  import opened IcebergSales

  /**
   * `synced` is what fact_sales held at the last daily run, `basis` what each day of the daily
   * table was last computed from, and `published` what the lakehouse table holds. No table
   * depends on these three; they are there to state what the tables mean.
   */
  datatype Marts = Marts(
    staging: Staging, clock: int,
    fact: map<Key, FactRow>, daily: map<Date, DayRow>, lake: Rows,
    synced: map<Key, SalesRow>, basis: Basis, published: map<Key, SalesRow>)

  datatype Step =
    | LoadStep(b: Batch, now: int)
    | FactStep(versions: set<CustomerVersion>, incremental: bool)
    | DailyStep(incremental: bool)
    | LakeStep(sales: Rows)

  ghost predicate Init(s: Marts) {
    && s.staging == Staging(map[], map[], map[]) && s.clock == EPOCH
    && s.fact == map[] && s.daily == map[] && s.lake == []
    && s.synced == map[] && s.basis == map[] && s.published == map[]
  }

  /** The tables change only through these steps; a first build is one of an empty table. */
  ghost predicate Next(s: Marts, s': Marts, step: Step) {
    match step
    case LoadStep(b, now) =>
      && s.clock < now && LoadedAt(b, now) && PaymentsStay(s.staging, b)
      && s' == s.(staging := Load(s.staging, b), clock := now)
    case FactStep(versions, incremental) =>
      && UniqueKeys(versions) && Disjoint(versions)
      && Related(s.staging)
      && (incremental || s.fact == map[])
      && s' == s.(fact := FactRun(versions, View(Dbt, s.staging), s.fact, incremental))
    case DailyStep(incremental) =>
      && (incremental || s.daily == map[])
      && s' == s.(daily := DailyRun(s.fact, s.daily, incremental),
                  synced := Sales(s.fact), basis := BasisRun(s.fact, s.basis, incremental))
    case LakeStep(sales) =>
      && Related(s.staging)
      && Represents(sales, View(Spark, s.staging))
      && s' == s.(lake := Job(s.lake, sales).0,
                  published := if Job(s.lake, sales).1.Committed? then View(Spark, s.staging) else s.published)
  }

  ghost predicate History(states: seq<Marts>, steps: seq<Step>) {
    && |states| == |steps| + 1
    && Init(states[0])
    && forall i :: 0 <= i < |steps| ==> Next(states[i], states[i + 1], steps[i])
  }

  // ----- Invariant -----

  /** Rows a mart has taken from the relation of `e`, up to some earlier load. */
  ghost predicate Taken(e: Engine, s: Staging, rows: map<Key, SalesRow>, clock: int) {
    && rows.Keys <= s.items.Keys
    && Follows(rows, View(e, s))
    && Past(rows, clock)
    && forall k :: k in rows ==> EPOCH < rows[k].loadedAt
  }

  ghost predicate AllPriced(basis: Basis) {
    forall d :: d in basis ==> Priced(basis[d])
  }

  ghost predicate MartsInv(s: Marts) {
    && StagingPast(s.staging, s.clock)
    && Taken(Dbt, s.staging, Sales(s.fact), s.clock)
    && Taken(Spark, s.staging, s.published, s.clock)
    && Represents(s.lake, s.published)
    && s.daily == DailyOf(s.basis) && BasisInv(s.basis, s.synced)
    && Since(s.synced, s.fact)
    && Priced(Sales(s.fact)) && AllPriced(s.basis)
  }

  lemma {:induction false} NothingTaken(e: Engine, s: Staging, rows: map<Key, SalesRow>)
    requires s == Staging(map[], map[], map[]) && rows == map[]
    ensures Taken(e, s, rows, EPOCH)
  {
    hide RowOf, HighWater;
    assert View(e, s).Keys == {};
  }

  lemma {:induction false} InitInv(s: Marts)
    requires Init(s)
    ensures MartsInv(s)
  {
    hide Taken, View, Metrics, HighWater;
    assert Sales(s.fact) == map[];
    NothingTaken(Dbt, s.staging, Sales(s.fact));
    NothingTaken(Spark, s.staging, s.published);
    assert Days(s.synced) == {};
    assert DailyOf(s.basis) == map[];
  }

  lemma {:induction false} LoadKeepsTaken(
      e: Engine, s: Staging, b: Batch, clock: int, now: int, rows: map<Key, SalesRow>)
    requires Taken(e, s, rows, clock) && clock < now && LoadedAt(b, now) && PaymentsStay(s, b)
    ensures Taken(e, Load(s, b), rows, now)
  {
    hide Follows, View, LoadedAt, PaymentsStay;
    LoadFollows(e, s, b, clock, now, rows);
  }

  lemma {:induction false} LoadKeepsPast(s: Staging, b: Batch, clock: int, now: int)
    requires StagingPast(s, clock) && clock < now && LoadedAt(b, now)
    ensures StagingPast(Load(s, b), now)
  {
  }

  /** A mart that holds the whole relation has taken it. */
  lemma {:induction false} ViewIsTaken(e: Engine, s: Staging, clock: int)
    requires StagingPast(s, clock) && Related(s)
    ensures Taken(e, s, View(e, s), clock)
  {
    hide View, HighWater, StagingPast;
    ViewCoversItems(e, s);
    assert EPOCH <= clock by { ClockIsPast(s, clock); }
    forall k | k in View(e, s) ensures EPOCH < View(e, s)[k].loadedAt <= clock {
      ViewIsPast(e, s, clock, k);
    }
  }

  lemma {:induction false} ClockIsPast(s: Staging, clock: int)
    requires StagingPast(s, clock)
    ensures EPOCH <= clock
  {
  }

  lemma {:induction false} ViewIsPriced(e: Engine, s: Staging)
    ensures Priced(View(e, s))
  {
    hide PaymentsOf, DbtGroup, SparkGroup;
  }

  lemma {:induction false} DaysArePriced(rows: map<Key, SalesRow>, d: Date)
    requires Priced(rows)
    ensures Priced(RowsOn(rows, d))
  {
    hide Day;
  }

  lemma {:induction false} FactBecomesView(s: Marts, versions: set<CustomerVersion>, incremental: bool)
    requires MartsInv(s) && UniqueKeys(versions) && Disjoint(versions) && Related(s.staging)
    ensures Sales(FactRun(versions, View(Dbt, s.staging), s.fact, incremental)) == View(Dbt, s.staging)
  {
    hide View, FactRun, Follows, StagingPast, Represents, Since, Past, BasisInv, DailyOf, Priced, AllPriced;
    ViewCoversItems(Dbt, s.staging);
    assert Sales(s.fact).Keys == s.fact.Keys;
    FactEqualsView(versions, View(Dbt, s.staging), s.fact, incremental);
  }

  lemma {:induction false} FactKeepsSince(
      rows: map<Key, SalesRow>, fact: map<Key, FactRow>, versions: set<CustomerVersion>,
      view: map<Key, SalesRow>, incremental: bool)
    requires UniqueKeys(versions) && Disjoint(versions)
    requires Since(rows, fact) && (incremental || fact == map[])
    requires forall k :: k in fact ==> EPOCH < fact[k].sale.loadedAt
    requires forall k :: k in view ==> EPOCH < view[k].loadedAt
    ensures Since(rows, FactRun(versions, view, fact, incremental))
  {
    hide HighWater, RowsHighWater, FactRun;
    HighWaterRises(rows, fact);
    if rows == map[] { EmptyHighWater(rows); }
    var fact' := FactRun(versions, view, fact, incremental);
    forall k | k in fact'
      ensures (k in rows && rows[k] == fact'[k].sale) || fact'[k].sale.loadedAt > RowsHighWater(rows)
    {
      FactRunRow(versions, view, fact, incremental, k);
    }
    forall k | k in rows ensures k in fact' {
      FactRunRow(versions, view, fact, incremental, k);
    }
  }

  lemma {:induction false} FactsAreLate(s: Marts)
    requires MartsInv(s)
    ensures forall k :: k in s.fact ==> EPOCH < s.fact[k].sale.loadedAt
  {
    hide View, Follows, Represents, Since, Past, StagingPast, BasisInv, DailyOf, Priced, AllPriced;
    forall k | k in s.fact ensures EPOCH < s.fact[k].sale.loadedAt {
      assert k in Sales(s.fact);
    }
  }

  lemma {:induction false} FactInv(s: Marts, s': Marts, versions: set<CustomerVersion>, incremental: bool)
    requires MartsInv(s) && Next(s, s', FactStep(versions, incremental))
    ensures MartsInv(s')
  {
    hide View, FactRun, Follows, Represents, Since, Past, StagingPast, Delta, BasisInv, DailyOf, Priced, AllPriced;
    var view := View(Dbt, s.staging);
    FactBecomesView(s, versions, incremental);
    ViewIsTaken(Dbt, s.staging, s.clock);
    ViewIsPriced(Dbt, s.staging);
    FactsAreLate(s);
    FactKeepsSince(s.synced, s.fact, versions, view, incremental);
  }

  /** A first build computes every day from its facts. */
  lemma {:induction false} FirstBasis(fact: map<Key, FactRow>, basis: Basis)
    requires basis == map[]
    ensures BasisRun(fact, basis, false).Keys == Days(Sales(fact))
    ensures forall d :: d in BasisRun(fact, basis, false) ==> BasisRun(fact, basis, false)[d] == RowsOn(Sales(fact), d)
    ensures BasisInv(BasisRun(fact, basis, false), Sales(fact)) && Stale(BasisRun(fact, basis, false), Sales(fact)) == {}
  {
    hide Day, Metrics, RowsHighWater, RowsOn;
    var full := FullIsFresh(Sales(fact));
    assert full == BasisRun(fact, basis, false) by { FreshKeys(full, Sales(fact)); }
  }

  lemma {:induction false} FreshKeys(basis: Basis, rows: map<Key, SalesRow>)
    requires BasisInv(basis, rows)
    ensures basis.Keys == Days(rows)
  {
  }

  lemma {:induction false} EmptyDaily(basis: Basis)
    requires DailyOf(basis) == map[]
    ensures basis == map[]
  {
    assert DailyOf(basis).Keys == basis.Keys;
  }

  lemma {:induction false} DailyInv(s: Marts, s': Marts, incremental: bool)
    requires MartsInv(s) && Next(s, s', DailyStep(incremental))
    ensures BasisInv(s'.basis, s'.synced)
    ensures s'.daily == DailyOf(s'.basis)
  {
    hide View, Taken, Represents, Since, StagingPast, BasisInv, BasisRun, DailyRun, DailyOf, Priced, AllPriced;
    RunOfBasis(s.fact, s.basis, incremental);
    if incremental {
      FactsAreLate(s);
      BasisKept(s.synced, s.fact, s.basis);
    } else {
      EmptyDaily(s.basis);
      FirstBasis(s.fact, s.basis);
    }
  }

  lemma {:induction false} BasisStaysPriced(fact: map<Key, FactRow>, basis: Basis, incremental: bool)
    requires Priced(Sales(fact)) && AllPriced(basis)
    ensures AllPriced(BasisRun(fact, basis, incremental))
  {
    hide Priced, AffectedDates, RowsOn, Days;
    forall d | d in BasisRun(fact, basis, incremental) ensures Priced(BasisRun(fact, basis, incremental)[d]) {
      DaysArePriced(Sales(fact), d);
    }
  }

  lemma {:induction false} LakeBecomesView(s: Marts, sales: Rows)
    requires MartsInv(s) && Related(s.staging)
    requires Represents(sales, View(Spark, s.staging))
    ensures var job := Job(s.lake, sales);
      Represents(job.0, if job.1.Committed? then View(Spark, s.staging) else s.published)
  {
    hide View, Follows, Represents, Since, Past, StagingPast, BasisInv, DailyOf, Priced, AllPriced, Job;
    ViewCoversItems(Spark, s.staging);
    JobRefreshes(s.lake, s.published, View(Spark, s.staging), sales);
  }

  lemma {:induction false} NextInv(s: Marts, s': Marts, step: Step)
    requires MartsInv(s) && Next(s, s', step)
    ensures MartsInv(s')
  {
    hide View, Taken, Represents, Since, StagingPast, BasisInv, DailyOf, BasisRun, DailyRun, FactRun, Job, LoadedAt,
      PaymentsStay, Related, Priced, AllPriced;
    match step
    case LoadStep(b, now) =>
      LoadKeepsPast(s.staging, b, s.clock, now);
      LoadKeepsTaken(Dbt, s.staging, b, s.clock, now, Sales(s.fact));
      LoadKeepsTaken(Spark, s.staging, b, s.clock, now, s.published);
    case FactStep(versions, incremental) =>
      FactInv(s, s', versions, incremental);
    case DailyStep(incremental) =>
      DailyInv(s, s', incremental);
      NothingHasLeft(s.fact);
      BasisStaysPriced(s.fact, s.basis, incremental);
    case LakeStep(sales) =>
      LakeBecomesView(s, sales);
      ViewIsTaken(Spark, s.staging, s.clock);
  }

  lemma {:induction false} HistoryInv(states: seq<Marts>, steps: seq<Step>, i: nat)
    requires History(states, steps) && i < |states|
    ensures MartsInv(states[i])
  {
    hide MartsInv, Next, Init;
    if i == 0 {
      InitInv(states[0]);
    } else {
      HistoryInv(states, steps, i - 1);
      assert Next(states[i - 1], states[i - 1 + 1], steps[i - 1]);
      NextInv(states[i - 1], states[i], steps[i - 1]);
    }
  }

  // ----- What follows for whole histories -----

  /** After a fact run, however many runs were skipped or failed before it, fact_sales has the rows of the full query. */
  lemma {:induction false} FactIsFullView(states: seq<Marts>, steps: seq<Step>, i: nat)
    requires History(states, steps) && i < |steps| && steps[i].FactStep?
    ensures Sales(states[i + 1].fact) == View(Dbt, states[i + 1].staging)
    ensures Lines(Sales(states[i + 1].fact)) == DbtSales(states[i + 1].staging)
  {
    hide MartsInv, Init, View, FactRun, Related, Lines, DbtSales;
    HistoryInv(states, steps, i);
    assert Next(states[i], states[i + 1], steps[i]);
    FactBecomesView(states[i], steps[i].versions, steps[i].incremental);
    QueryIsView(Dbt, states[i].staging);
  }

  /** After a committed lakehouse job the table has the rows of the full transform, each once. */
  lemma {:induction false} LakeIsFullTransform(states: seq<Marts>, steps: seq<Step>, i: nat)
    requires History(states, steps) && i < |steps| && steps[i].LakeStep?
    ensures Job(states[i].lake, steps[i].sales).1.Committed? ==>
      && Represents(states[i + 1].lake, View(Spark, states[i + 1].staging))
      && RowSet(states[i + 1].lake) == SparkSales(states[i + 1].staging)
      && Grain(states[i + 1].lake)
    ensures Job(states[i].lake, steps[i].sales).1.Rejected? ==> states[i + 1].lake == states[i].lake
  {
    hide MartsInv, Init, View, Represents, Related, ValidateSales, WriteSales, NewSales, LakeHighWater, Lines, SparkSales;
    HistoryInv(states, steps, i);
    assert Next(states[i], states[i + 1], steps[i]);
    LakeBecomesView(states[i], steps[i].sales);
    if Job(states[i].lake, steps[i].sales).1.Committed? {
      RepresentsLines(states[i + 1].lake, View(Spark, states[i + 1].staging));
      RepresentsGrain(states[i + 1].lake, View(Spark, states[i + 1].staging));
      QueryIsView(Spark, states[i + 1].staging);
    }
  }

  /** A job over staged items without negative quantities or prices always commits. */
  lemma {:induction false} ValidStagingCommits(states: seq<Marts>, steps: seq<Step>, i: nat)
    requires History(states, steps) && i < |steps| && steps[i].LakeStep?
    requires forall k :: k in states[i].staging.items ==>
      states[i].staging.items[k].quantity >= 0 && states[i].staging.items[k].unitPrice >= 0
    ensures Job(states[i].lake, steps[i].sales).1.Committed?
    ensures RowSet(states[i + 1].lake) == SparkSales(states[i + 1].staging)
  {
    hide Init, View, Represents, Related, Job, Follows, Past, StagingPast, BasisInv, DailyOf, Since, Priced, AllPriced, RowSet,
      SparkSales, RowsHighWater;
    HistoryInv(states, steps, i);
    assert Next(states[i], states[i + 1], steps[i]);
    var s := states[i];
    ViewCoversItems(Spark, s.staging);
    forall k | k in View(Spark, s.staging)
      ensures View(Spark, s.staging)[k].quantity >= 0 && View(Spark, s.staging)[k].salesAmount >= 0
    {
      ColumnsOfSale(Spark, s.staging, k);
      ProductIsNonNegative(s.staging.items[k].quantity, s.staging.items[k].unitPrice);
    }
    JobRefreshes(s.lake, s.published, View(Spark, s.staging), steps[i].sales);
    LakeIsFullTransform(states, steps, i);
  }

  lemma {:induction false} ProductIsNonNegative(x: int, y: int)
    requires x >= 0 && y >= 0
    ensures x * y >= 0
  {
  }

  // ----- What was loaded last is what the marts show -----

  ghost predicate LoadsItem(step: Step, k: Key) { step.LoadStep? && step.b.ItemBatch? && k in step.b.items }

  ghost predicate LoadsOrder(step: Step, o: Key) { step.LoadStep? && step.b.OrderBatch? && o in step.b.orders }

  ghost predicate LoadsPayment(step: Step, p: Key) { step.LoadStep? && step.b.PaymentBatch? && p in step.b.payments }

  /** Of the first `n` steps, step `m` is the last one that loads item `k`. */
  ghost predicate LastItemLoad(steps: seq<Step>, n: nat, k: Key, m: nat)
    requires n <= |steps|
  {
    m < n && LoadsItem(steps[m], k) && forall j :: m < j < n ==> !LoadsItem(steps[j], k)
  }

  ghost predicate LastOrderLoad(steps: seq<Step>, n: nat, o: Key, m: nat)
    requires n <= |steps|
  {
    m < n && LoadsOrder(steps[m], o) && forall j :: m < j < n ==> !LoadsOrder(steps[j], o)
  }

  ghost predicate LastPaymentLoad(steps: seq<Step>, n: nat, p: Key, m: nat)
    requires n <= |steps|
  {
    m < n && LoadsPayment(steps[m], p) && forall j :: m < j < n ==> !LoadsPayment(steps[j], p)
  }

  lemma {:induction false} StagingChanges(s: Marts, s': Marts, step: Step, k: Key)
    requires Next(s, s', step)
    ensures Lookup(s'.staging.items, k) == if LoadsItem(step, k) then Some(step.b.items[k]) else Lookup(s.staging.items, k)
    ensures Lookup(s'.staging.orders, k) == if LoadsOrder(step, k) then Some(step.b.orders[k]) else Lookup(s.staging.orders, k)
    ensures Lookup(s'.staging.payments, k)
      == if LoadsPayment(step, k) then Some(step.b.payments[k]) else Lookup(s.staging.payments, k)
  {
    hide LoadedAt, PaymentsStay, Related, FactRun, DailyRun, BasisRun, Job, Represents, View;
  }

  /** In every history a staged row is what the last load of its key brought. */
  lemma {:induction false} StagingIsLastLoads(states: seq<Marts>, steps: seq<Step>, n: nat, k: Key, m: nat)
    requires History(states, steps) && n <= |steps|
    ensures LastItemLoad(steps, n, k, m) ==> Lookup(states[n].staging.items, k) == Some(steps[m].b.items[k])
    ensures LastOrderLoad(steps, n, k, m) ==> Lookup(states[n].staging.orders, k) == Some(steps[m].b.orders[k])
    ensures LastPaymentLoad(steps, n, k, m) ==> Lookup(states[n].staging.payments, k) == Some(steps[m].b.payments[k])
  {
    hide Next, LoadsItem, LoadsOrder, LoadsPayment;
    if n > 0 {
      StagingIsLastLoads(states, steps, n - 1, k, m);
      assert Next(states[n - 1], states[n - 1 + 1], steps[n - 1]);
      StagingChanges(states[n - 1], states[n], steps[n - 1], k);
    }
  }

  /**
   * After a fact run, whatever was skipped or failed before it, the row of an item has the columns
   * that the last load of the item and the last load of its order brought.
   */
  lemma {:induction false} FactShowsLastLoads(states: seq<Marts>, steps: seq<Step>, i: nat, k: Key, m: nat, l: nat)
    requires History(states, steps) && i < |steps| && steps[i].FactStep?
    requires LastItemLoad(steps, i, k, m) && LastOrderLoad(steps, i, steps[m].b.items[k].orderId, l)
    ensures k in states[i + 1].fact
    ensures var sale, item := states[i + 1].fact[k].sale, steps[m].b.items[k];
      var order := steps[l].b.orders[item.orderId];
      && sale.orderId == item.orderId && sale.productId == item.productId
      && sale.quantity == item.quantity && sale.unitPrice == item.unitPrice
      && sale.salesAmount == item.quantity * item.unitPrice
      && sale.customerId == order.customerId && sale.orderDate == order.orderDate && sale.orderStatus == order.status
  {
    var item := steps[m].b.items[k];
    var order := steps[l].b.orders[item.orderId];
    hide View, LastItemLoad, LastOrderLoad, Init, FactRun, Related, Lines, DbtSales;
    FactIsFullView(states, steps, i);
    StagingIsLastLoads(states, steps, i, k, m);
    StagingIsLastLoads(states, steps, i, item.orderId, l);
    assert Next(states[i], states[i + 1], steps[i]);
    var s := states[i + 1].staging;
    assert Lookup(s.items, k) == Some(item) && Lookup(s.orders, item.orderId) == Some(order);
    ColumnsOfSale(Dbt, s, k);
    assert k in Sales(states[i + 1].fact);
  }

  /**
   * A fact run stores with each row it merges the customer version whose range holds the order
   * date, or before the customer's first range the first version.
   */
  lemma {:induction false} MergedRowsAreResolved(states: seq<Marts>, steps: seq<Step>, i: nat, k: Key, sk: int)
    requires History(states, steps) && i < |steps| && steps[i].FactStep?
    requires var view := View(Dbt, states[i].staging);
      k in view && (steps[i].incremental ==> view[k].loadedAt > RowsHighWater(Sales(states[i].fact)))
    ensures k in states[i + 1].fact
    ensures var row, versions := states[i + 1].fact[k], steps[i].versions;
      && (row.customer == AsOf(sk) <==>
            exists v :: v in versions && v.sk == sk && v.customerId == row.sale.customerId
              && v.validFrom <= row.sale.orderDate && (v.validTo.None? || row.sale.orderDate < v.validTo.value))
      && (row.customer == EarliestAvailable(sk) <==>
            exists v :: v in versions && v.sk == sk && v.customerId == row.sale.customerId
              && row.sale.orderDate < v.validFrom
              && forall w :: w in versions && w.customerId == v.customerId && w != v ==>
                   v.validFrom < w.validFrom || (v.validFrom == w.validFrom && v.sk < w.sk))
  {
    hide Init, View, Resolve, UniqueKeys, Disjoint, Related, RowsHighWater;
    assert Next(states[i], states[i + 1], steps[i]);
    var row := View(Dbt, states[i].staging)[k];
    ResolutionByRange(steps[i].versions, row.customerId, row.orderDate, sk);
  }

  /** Nothing is loaded in the steps from `i` up to `n`. */
  ghost predicate NoLoads(steps: seq<Step>, i: nat, n: nat)
    requires i <= n <= |steps|
  {
    forall m :: i <= m < n ==> !steps[m].LoadStep?
  }

  /** Until the next load fact_sales stays the full relation, whatever else runs. */
  lemma {:induction false} FactStaysView(states: seq<Marts>, steps: seq<Step>, i: nat, n: nat)
    requires History(states, steps) && i < n <= |steps| && steps[i].FactStep? && NoLoads(steps, i, n)
    ensures Sales(states[n].fact) == View(Dbt, states[n].staging)
  {
    hide MartsInv, Init, View, FactRun, DailyRun, BasisRun, Job, Related, Lines, DbtSales;
    if n == i + 1 {
      FactIsFullView(states, steps, i);
    } else {
      FactStaysView(states, steps, i, n - 1);
      assert Next(states[n - 1], states[n - 1 + 1], steps[n - 1]);
      if steps[n - 1].FactStep? {
        FactIsFullView(states, steps, n - 1);
      }
    }
  }

  /** Until the next load the lakehouse table stays the full transform, also if a later job is rejected. */
  lemma {:induction false} LakeStaysTransform(states: seq<Marts>, steps: seq<Step>, j: nat, n: nat)
    requires History(states, steps) && j < n <= |steps| && NoLoads(steps, j, n)
    requires steps[j].LakeStep? && Job(states[j].lake, steps[j].sales).1.Committed?
    ensures states[n].published == View(Spark, states[n].staging)
  {
    hide MartsInv, Init, View, FactRun, DailyRun, BasisRun, Job, Related, Represents;
    assert Next(states[n - 1], states[n - 1 + 1], steps[n - 1]);
    if n == j + 1 {
    } else {
      LakeStaysTransform(states, steps, j, n - 1);
    }
  }

  /**
   * The two marts agree once both have run on the same staging, in either order and with any
   * daily runs or further mart runs around them, when every payment has a status.
   */
  lemma {:induction false} MartsAgree(states: seq<Marts>, steps: seq<Step>, i: nat, j: nat, n: nat)
    requires History(states, steps) && i < n <= |steps| && j < n
    requires steps[i].FactStep? && NoLoads(steps, i, n)
    requires steps[j].LakeStep? && Job(states[j].lake, steps[j].sales).1.Committed? && NoLoads(steps, j, n)
    requires forall p :: p in states[n].staging.payments ==> states[n].staging.payments[p].status.Some?
    ensures Represents(states[n].lake, Sales(states[n].fact))
  {
    hide Init, Next, Taken, View, Represents, Job, DailyOf, BasisInv, Since, Priced, AllPriced, StagingPast, DbtSales, SparkSales;
    FactStaysView(states, steps, i, n);
    LakeStaysTransform(states, steps, j, n);
    KnownStatusesAgree(states[n].staging);
    HistoryInv(states, steps, n);
  }

  // ----- The daily table in every history -----

  /** A daily run leaves exactly the days that sell, and every day that is not stale has the metrics of its facts. */
  lemma {:induction false} FreshDaysMatchFact(states: seq<Marts>, steps: seq<Step>, i: nat)
    requires History(states, steps) && i < |steps| && steps[i].DailyStep?
    ensures var s := states[i + 1];
      && s.daily.Keys == Days(Sales(s.fact))
      && (forall d :: d in s.daily && d !in Stale(s.basis, Sales(s.fact)) ==>
            s.daily[d] == Metrics(RowsOn(Sales(s.fact), d)))
      && (Stale(s.basis, Sales(s.fact)) == {} ==> s.daily == FullDaily(Sales(s.fact)))
  {
    hide Init, Taken, StagingPast, Represents, Since, BasisInv, FullDaily, DailyRun, BasisRun, Stale, Metrics, RowsOn,
      Priced, AllPriced;
    HistoryInv(states, steps, i + 1);
    assert Next(states[i], states[i + 1], steps[i]);
    var s := states[i + 1];
    FreshDaysAreExact(s.basis, s.synced);
    FullDays(s.synced);
    assert s.daily.Keys == s.basis.Keys;
  }

  /**
   * How stale days come and go: a daily run keeps those that were stale and adds those that an
   * item has left, except the affected and the empty ones. No other step changes them.
   */
  lemma {:induction false} StaleDaysEvolve(states: seq<Marts>, steps: seq<Step>, i: nat, d: Date)
    requires History(states, steps) && i < |steps|
    ensures var s, s' := states[i], states[i + 1];
      d in Stale(s'.basis, s'.synced) <==>
        if !steps[i].DailyStep? then d in Stale(s.basis, s.synced)
        else
          && steps[i].incremental
          && d in Days(Sales(s.fact)) && d !in DaysAbove(s.fact, RowsHighWater(s.synced))
          && (d in Stale(s.basis, s.synced) || Left(s.synced, s.fact, d))
  {
    hide Init, Taken, StagingPast, Represents, Since, BasisInv, FullDaily, DailyRun, BasisRun, Stale, RowsHighWater,
      Priced, AllPriced, Job, FactRun, Left, DaysAbove, Related, LoadedAt, PaymentsStay, DailyOf;
    HistoryInv(states, steps, i);
    assert Next(states[i], states[i + 1], steps[i]);
    if steps[i].DailyStep? {
      if steps[i].incremental {
        StaleAfterRun(states[i].synced, states[i].fact, states[i].basis, d);
      } else {
        EmptyDaily(states[i].basis);
        FirstBasis(states[i].fact, states[i].basis);
      }
    }
  }

  /** No load of the history has a negative quantity: the source's CHECK. */
  ghost predicate LoadsNonNegative(steps: seq<Step>) {
    forall i :: 0 <= i < |steps| && steps[i].LoadStep? ==> BatchNonNegative(steps[i].b)
  }

  ghost predicate BatchNonNegative(b: Batch) {
    b.ItemBatch? ==> forall k :: k in b.items ==> b.items[k].quantity >= 0
  }

  ghost predicate QuantitiesInv(s: Marts) {
    && (forall k :: k in s.staging.items ==> s.staging.items[k].quantity >= 0)
    && NonNegative(Sales(s.fact))
    && forall d :: d in s.basis ==> NonNegative(s.basis[d])
  }

  lemma {:induction false} ViewIsNonNegative(e: Engine, s: Staging)
    requires forall k :: k in s.items ==> s.items[k].quantity >= 0
    ensures NonNegative(View(e, s))
  {
    hide PaymentsOf, DbtGroup, SparkGroup;
  }

  lemma {:induction false} DaysAreNonNegative(rows: map<Key, SalesRow>, d: Date)
    requires NonNegative(rows)
    ensures NonNegative(RowsOn(rows, d))
  {
    hide Day;
  }

  lemma {:induction false} BasisStaysNonNegative(fact: map<Key, FactRow>, basis: Basis, incremental: bool)
    requires NonNegative(Sales(fact)) && forall d :: d in basis ==> NonNegative(basis[d])
    ensures forall d :: d in BasisRun(fact, basis, incremental) ==> NonNegative(BasisRun(fact, basis, incremental)[d])
  {
    hide NonNegative, AffectedDates, RowsOn, Days;
    forall d | d in BasisRun(fact, basis, incremental) ensures NonNegative(BasisRun(fact, basis, incremental)[d]) {
      DaysAreNonNegative(Sales(fact), d);
    }
  }

  lemma {:induction false} QuantitiesKept(s: Marts, s': Marts, step: Step)
    requires MartsInv(s) && Next(s, s', step) && QuantitiesInv(s)
    requires step.LoadStep? ==> BatchNonNegative(step.b)
    ensures QuantitiesInv(s')
  {
    hide MartsInv, View, FactRun, DailyRun, BasisRun, Job, NonNegative, LoadedAt, PaymentsStay;
    match step
    case FactStep(versions, incremental) =>
      FactBecomesView(s, versions, incremental);
      ViewIsNonNegative(Dbt, s.staging);
    case DailyStep(incremental) =>
      BasisStaysNonNegative(s.fact, s.basis, incremental);
    case _ =>
  }

  lemma {:induction false} QuantitiesInHistory(states: seq<Marts>, steps: seq<Step>, i: nat)
    requires History(states, steps) && LoadsNonNegative(steps) && i < |states|
    ensures QuantitiesInv(states[i])
  {
    hide MartsInv, Next, BatchNonNegative;
    if i == 0 {
    } else {
      QuantitiesInHistory(states, steps, i - 1);
      HistoryInv(states, steps, i - 1);
      assert Next(states[i - 1], states[i - 1 + 1], steps[i - 1]);
      QuantitiesKept(states[i - 1], states[i], steps[i - 1]);
    }
  }

  /**
   * The exact condition, for every history the source's quantities allow: after a daily run the
   * table equals the full aggregate of fact_sales iff each stale day is harmless.
   */
  lemma {:induction false} DailyIsExactInHistory(states: seq<Marts>, steps: seq<Step>, i: nat)
    requires History(states, steps) && LoadsNonNegative(steps) && i < |steps| && steps[i].DailyStep?
    ensures var s := states[i + 1];
      s.daily == FullDaily(Sales(s.fact)) <==>
        forall d :: d in Stale(s.basis, Sales(s.fact)) ==> Harmless(s.basis[d], RowsOn(Sales(s.fact), d))
  {
    hide Init, Taken, StagingPast, Represents, Since, BasisInv, FullDaily, DailyRun, BasisRun, Harmless, RowsOn,
      Priced, DailyOf, LoadsNonNegative, NonNegative;
    HistoryInv(states, steps, i + 1);
    QuantitiesInHistory(states, steps, i + 1);
    assert Next(states[i], states[i + 1], steps[i]);
    DailyIsExact(states[i + 1].basis, states[i + 1].synced);
  }

  // ----- Builds that finish both models -----

  /** No row about to be merged has left its day since the last daily run. */
  ghost predicate NoPendingMove(synced: map<Key, SalesRow>, fact: map<Key, FactRow>, delta: map<Key, SalesRow>) {
    forall k, d :: k in delta ==> !LeftDay(synced, fact, k, d)
  }

  /** A fact run keeps the memory of earlier moves if it does not merge a moved item again. */
  lemma {:induction false} FactKeepsMemory(
      s: Marts, s': Marts, versions: set<CustomerVersion>, incremental: bool)
    requires MartsInv(s) && Next(s, s', FactStep(versions, incremental))
    requires MovesRemembered(s.synced, s.fact)
    requires NoPendingMove(s.synced, s.fact, Delta(View(Dbt, s.staging), Sales(s.fact), incremental))
    ensures MovesRemembered(s'.synced, s'.fact) && NoDayForgotten(s'.synced, s'.fact)
  {
    hide View, FactRun, Taken, Represents, StagingPast, Delta, Related, Since, NoDayForgotten, Day, BasisInv, DailyOf,
      Priced, AllPriced;
    FactInv(s, s', versions, incremental);
    forall k, d | LeftDay(s'.synced, s'.fact, k, d)
      ensures s'.fact[k].previousDate.Some? && Day(s'.fact[k].previousDate.value) == d
    {
      FactRunRow(versions, View(Dbt, s.staging), s.fact, incremental, k);
      SinceKeys(s.synced, s.fact);
      assert k in s.fact;
      if k in Delta(View(Dbt, s.staging), Sales(s.fact), incremental) {
        assert !LeftDay(s.synced, s.fact, k, d);
      } else {
        assert Lookup(s'.fact, k) == Some(s.fact[k]);
        assert LeftDay(s.synced, s.fact, k, d);
      }
    }
    RememberedIsEnough(s'.synced, s'.fact);
  }

  lemma {:induction false} SinceKeys(rows: map<Key, SalesRow>, fact: map<Key, FactRow>)
    requires Since(rows, fact)
    ensures rows.Keys <= fact.Keys
  {
  }

  lemma {:induction false} NoMovePending(fact: map<Key, FactRow>, delta: map<Key, SalesRow>)
    ensures NoPendingMove(Sales(fact), fact, delta)
  {
    hide Day;
  }

  /** One fact run after a daily run forgets no day. */
  lemma {:induction false} OneFactRunForgetsNothing(
      s: Marts, s': Marts, versions: set<CustomerVersion>, incremental: bool)
    requires MartsInv(s) && Next(s, s', FactStep(versions, incremental))
    requires s.synced == Sales(s.fact)
    ensures NoDayForgotten(s'.synced, s'.fact)
  {
    hide MartsInv, Next, View, NoDayForgotten, MovesRemembered, NoPendingMove;
    NothingHasLeft(s.fact);
    NoMovePending(s.fact, Delta(View(Dbt, s.staging), Sales(s.fact), incremental));
    FactKeepsMemory(s, s', versions, incremental);
  }

  lemma {:induction false} DailyClears(s: Marts, s': Marts, incremental: bool)
    requires MartsInv(s) && Next(s, s', DailyStep(incremental))
    requires Stale(s.basis, s.synced) == {} && MovesRemembered(s.synced, s.fact)
    ensures Stale(s'.basis, s'.synced) == {} && MovesRemembered(s'.synced, s'.fact)
  {
    hide Taken, Represents, StagingPast, Since, MovesRemembered, NoDayForgotten, BasisInv, DailyOf, BasisRun, DailyRun,
      Stale, Priced, AllPriced, DaysAbove;
    NothingHasLeft(s.fact);
    RememberedIsEnough(s.synced, s.fact);
    if incremental {
      NoNewStaleDay(s.synced, s.fact, s.basis);
    } else {
      EmptyDaily(s.basis);
      FirstBasis(s.fact, s.basis);
    }
  }

  /** No fact run of the history merges an item that has moved since the last daily run. */
  ghost predicate NoMovedItemMerged(states: seq<Marts>, steps: seq<Step>)
    requires |states| == |steps| + 1
  {
    forall i :: 0 <= i < |steps| && steps[i].FactStep? ==> MergesNoMove(states[i], steps[i].incremental)
  }

  ghost predicate MergesNoMove(s: Marts, incremental: bool) {
    NoPendingMove(s.synced, s.fact, Delta(View(Dbt, s.staging), Sales(s.fact), incremental))
  }

  lemma {:induction false} NothingStale(basis: Basis, rows: map<Key, SalesRow>)
    requires basis == map[]
    ensures Stale(basis, rows) == {}
  {
    hide RowsOn;
  }

  lemma {:induction false} StaysFresh(states: seq<Marts>, steps: seq<Step>, i: nat)
    requires History(states, steps) && NoMovedItemMerged(states, steps) && i < |states|
    ensures Stale(states[i].basis, states[i].synced) == {} && MovesRemembered(states[i].synced, states[i].fact)
  {
    hide MartsInv, MovesRemembered, Stale;
    if i == 0 {
      NothingHasLeft(states[0].fact);
      assert Sales(states[0].fact) == map[];
      NothingStale(states[0].basis, states[0].synced);
    } else {
      hide Init, BasisRun, DailyRun, FactRun, Job, Related, LoadedAt, PaymentsStay, View, Delta, NoPendingMove;
      StaysFresh(states, steps, i - 1);
      HistoryInv(states, steps, i - 1);
      assert Next(states[i - 1], states[i - 1 + 1], steps[i - 1]);
      match steps[i - 1]
      case FactStep(versions, incremental) =>
        assert MergesNoMove(states[i - 1], incremental);
        FactKeepsMemory(states[i - 1], states[i], versions, incremental);
      case DailyStep(incremental) =>
        DailyClears(states[i - 1], states[i], incremental);
      case _ =>
    }
  }

  /**
   * In every history in which no moved item is merged again before the next daily run, however
   * many fact runs lie between two daily runs, the daily table is exact after every daily run.
   */
  lemma {:induction false} UnmergedMovesStayExact(states: seq<Marts>, steps: seq<Step>, i: nat)
    requires History(states, steps) && NoMovedItemMerged(states, steps) && i < |steps| && steps[i].DailyStep?
    ensures states[i + 1].daily == FullDaily(Sales(states[i + 1].fact))
  {
    hide Init, FullDaily, Stale, Days, Metrics, DailyRun, BasisRun, NoMovedItemMerged;
    StaysFresh(states, steps, i + 1);
    assert Next(states[i], states[i + 1], steps[i]);
    FreshDaysMatchFact(states, steps, i);
  }

  /** Every fact run is followed at once by a daily run, as in a build that finishes both models. */
  ghost predicate Paired(steps: seq<Step>) {
    forall i :: 0 <= i < |steps| && steps[i].FactStep? ==> i + 1 < |steps| && steps[i + 1].DailyStep?
  }

  /** Only a daily run comes right after a fact run. */
  lemma {:induction false} PairedBefore(steps: seq<Step>, i: nat)
    requires Paired(steps) && i < |steps| && !steps[i].DailyStep?
    ensures i == 0 || !steps[i - 1].FactStep?
  {
  }

  lemma {:induction false} PairedIsSynced(states: seq<Marts>, steps: seq<Step>, i: nat)
    requires History(states, steps) && Paired(steps) && i < |states|
    requires i == 0 || !steps[i - 1].FactStep?
    ensures states[i].synced == Sales(states[i].fact)
  {
    hide BasisRun, DailyRun, FactRun, Job, Related, LoadedAt, PaymentsStay, View;
    if i == 0 {
      assert Sales(states[0].fact) == map[];
    } else {
      assert Next(states[i - 1], states[i - 1 + 1], steps[i - 1]);
      if !steps[i - 1].DailyStep? {
        PairedBefore(steps, i - 1);
        PairedIsSynced(states, steps, i - 1);
      }
    }
  }

  /** So builds that always finish both models keep the daily table exact, whatever is loaded in between. */
  lemma {:induction false} PairedBuildsStayExact(states: seq<Marts>, steps: seq<Step>, i: nat)
    requires History(states, steps) && Paired(steps) && i < |steps| && steps[i].DailyStep?
    ensures states[i + 1].daily == FullDaily(Sales(states[i + 1].fact))
  {
    hide Init, Next, FullDaily, View, NoPendingMove;
    forall m | 0 <= m < |steps| && steps[m].FactStep? ensures MergesNoMove(states[m], steps[m].incremental) {
      PairedBefore(steps, m);
      PairedIsSynced(states, steps, m);
      NoMovePending(states[m].fact, Delta(View(Dbt, states[m].staging), Sales(states[m].fact), steps[m].incremental));
    }
    UnmergedMovesStayExact(states, steps, i);
  }

  // ----- Histories in which items keep their order -----

  ghost predicate ItemsStay(s: Staging, b: Batch) {
    b.ItemBatch? ==> forall k :: k in b.items && k in s.items ==> b.items[k].orderId == s.items[k].orderId
  }

  ghost predicate ItemsKeepOrders(states: seq<Marts>, steps: seq<Step>)
    requires |states| == |steps| + 1
  {
    forall i :: 0 <= i < |steps| && steps[i].LoadStep? ==> ItemsStay(states[i].staging, steps[i].b)
  }

  /** Rows carry the order of their staged item. */
  ghost predicate OwnOrders(rows: map<Key, SalesRow>, items: map<Key, Item>) {
    forall k :: k in rows ==> k in items && rows[k].orderId == items[k].orderId
  }

  ghost predicate OrdersInv(s: Marts) {
    && OwnOrders(Sales(s.fact), s.staging.items) && OneDate(Sales(s.fact))
    && OwnOrders(s.synced, s.staging.items) && OneDate(s.synced)
    && forall d :: d in s.basis ==> OwnOrders(s.basis[d], s.staging.items) && s.basis[d].Keys <= s.synced.Keys
  }

  lemma {:induction false} ViewHasOrders(e: Engine, s: Staging)
    ensures OwnOrders(View(e, s), s.items) && OneDate(View(e, s))
  {
    hide PaymentsOf, DbtGroup, SparkGroup;
  }

  lemma {:induction false} DaysOwnOrders(rows: map<Key, SalesRow>, items: map<Key, Item>, d: Date)
    requires OwnOrders(rows, items)
    ensures OwnOrders(RowsOn(rows, d), items) && RowsOn(rows, d).Keys <= rows.Keys
  {
    hide Day;
  }

  lemma {:induction false} LoadKeepsOrders(rows: map<Key, SalesRow>, s: Staging, b: Batch)
    requires OwnOrders(rows, s.items) && ItemsStay(s, b)
    ensures OwnOrders(rows, Load(s, b).items)
  {
  }

  lemma {:induction false} RunKeepsOrders(s: Marts, incremental: bool)
    requires OrdersInv(s) && Since(s.synced, s.fact)
    ensures forall d :: d in BasisRun(s.fact, s.basis, incremental) ==>
      && OwnOrders(BasisRun(s.fact, s.basis, incremental)[d], s.staging.items)
      && BasisRun(s.fact, s.basis, incremental)[d].Keys <= s.fact.Keys
  {
    hide OwnOrders, OneDate, RowsOn, AffectedDates, Days;
    SinceKeys(s.synced, s.fact);
    assert Sales(s.fact).Keys == s.fact.Keys;
    forall d | d in BasisRun(s.fact, s.basis, incremental)
      ensures OwnOrders(BasisRun(s.fact, s.basis, incremental)[d], s.staging.items)
      ensures BasisRun(s.fact, s.basis, incremental)[d].Keys <= s.fact.Keys
    {
      DaysOwnOrders(Sales(s.fact), s.staging.items, d);
    }
  }

  lemma {:induction false} OrdersKept(s: Marts, s': Marts, step: Step)
    requires MartsInv(s) && Next(s, s', step) && OrdersInv(s)
    requires step.LoadStep? ==> ItemsStay(s.staging, step.b)
    ensures OrdersInv(s')
  {
    hide OwnOrders, OneDate, View, FactRun, DailyRun, BasisRun, Job, LoadedAt, PaymentsStay, ItemsStay, Taken, Represents,
      StagingPast, BasisInv, DailyOf, Priced, AllPriced, Since, Load;
    match step
    case LoadStep(b, now) =>
      LoadKeepsOrders(Sales(s.fact), s.staging, b);
      LoadKeepsOrders(s.synced, s.staging, b);
      forall d | d in s.basis ensures OwnOrders(s.basis[d], Load(s.staging, b).items) {
        LoadKeepsOrders(s.basis[d], s.staging, b);
      }
    case FactStep(versions, incremental) =>
      FactBecomesView(s, versions, incremental);
      ViewHasOrders(Dbt, s.staging);
    case DailyStep(incremental) =>
      RunKeepsOrders(s, incremental);
      assert Sales(s.fact).Keys == s.fact.Keys;
    case _ =>
  }

  lemma {:induction false} OrdersInHistory(states: seq<Marts>, steps: seq<Step>, i: nat)
    requires History(states, steps) && ItemsKeepOrders(states, steps) && i < |states|
    ensures OrdersInv(states[i])
  {
    hide MartsInv, Next, ItemsStay;
    if i == 0 {
    } else {
      OrdersInHistory(states, steps, i - 1);
      HistoryInv(states, steps, i - 1);
      assert Next(states[i - 1], states[i - 1 + 1], steps[i - 1]);
      OrdersKept(states[i - 1], states[i], steps[i - 1]);
    }
  }

  /**
   * In every history in which no item changes its order, and whatever the quantities: after a
   * daily run the table is exact, and the project's check passes, iff no day is stale.
   */
  lemma {:induction false} ExactIffNoDayIsStale(states: seq<Marts>, steps: seq<Step>, i: nat)
    requires History(states, steps) && ItemsKeepOrders(states, steps) && i < |steps| && steps[i].DailyStep?
    ensures var s := states[i + 1];
      && (s.daily == FullDaily(Sales(s.fact)) <==> Stale(s.basis, Sales(s.fact)) == {})
      && (PassesCheck(s.daily, Sales(s.fact)) <==> Stale(s.basis, Sales(s.fact)) == {})
  {
    hide Init, Taken, StagingPast, Represents, Since, BasisInv, FullDaily, DailyRun, BasisRun, Stale, PassesCheck,
      Priced, AllPriced, DailyOf, OneDate, ItemsKeepOrders;
    HistoryInv(states, steps, i + 1);
    OrdersInHistory(states, steps, i + 1);
    assert Next(states[i], states[i + 1], steps[i]);
    var s := states[i + 1];
    forall d, k | d in s.basis && k in s.basis[d]
      ensures k in s.synced && s.synced[k].orderId == s.basis[d][k].orderId
    {
      assert OwnOrders(s.basis[d], s.staging.items);
    }
    ExactIffFresh(s.basis, s.synced);
  }
}
