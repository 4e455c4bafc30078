/**
 * daily_sales.sql: the daily aggregate, kept by recomputing whole affected days from
 * fact_sales. Its specification is the full recompute that assert_daily_sales_matches_fact
 * compares it with.
 */
module DailySales {
  import opened Aggregates
  import opened Prelude
  import opened SalesView
  import opened FactSales

  datatype Date = Date(day: int)

  const MICROSECONDS_PER_DAY := 86_400_000_000

  /** order_date::date */
  function Day(t: int): Date { Date(t / MICROSECONDS_PER_DAY) }

  datatype DayRow = DayRow(totalOrders: nat, totalItems: int, totalSales: int, paidSales: int, maxLoaded: int)

  // ----- The aggregate -----

  function RowsOn(rows: map<Key, SalesRow>, d: Date): map<Key, SalesRow> {
    map k | k in rows && Day(rows[k].orderDate) == d :: rows[k]
  }

  function Days(rows: map<Key, SalesRow>): set<Date> {
    set k | k in rows :: Day(rows[k].orderDate)
  }

  function Quantities(rows: map<Key, SalesRow>): map<Key, int> {
    map k | k in rows :: rows[k].quantity
  }

  function Amounts(rows: map<Key, SalesRow>): map<Key, int> {
    map k | k in rows :: rows[k].salesAmount
  }

  function PaidAmounts(rows: map<Key, SalesRow>): map<Key, int> {
    map k | k in rows :: if rows[k].paymentStatus == "paid" then rows[k].salesAmount else 0
  }

  function OrderIds(rows: map<Key, SalesRow>): set<Key> {
    set k | k in rows :: rows[k].orderId
  }

  ghost function Metrics(rows: map<Key, SalesRow>): DayRow {
    DayRow(
      |OrderIds(rows)|,
      Total(Quantities(rows)),
      Total(Amounts(rows)),
      Total(PaidAmounts(rows)),
      RowsHighWater(rows))
  }

  /** The full recompute: one row per day that has sales. */
  ghost function FullDaily(rows: map<Key, SalesRow>): map<Date, DayRow> {
    map d | d in Days(rows) :: Metrics(RowsOn(rows, d))
  }

  // ----- What the columns of a day hold -----

  /** The amounts of the paid rows only. */
  lemma {:induction false} PaidTotal(rows: map<Key, SalesRow>)
    ensures Total(PaidAmounts(rows)) == Total(map k | k in rows && rows[k].paymentStatus == "paid" :: rows[k].salesAmount)
  {
    var paid := set k | k in rows && rows[k].paymentStatus == "paid";
    TotalSplit(PaidAmounts(rows), paid);
    TotalOfZeros(PaidAmounts(rows) - paid);
    assert Within(PaidAmounts(rows), paid) == map k | k in rows && rows[k].paymentStatus == "paid" :: rows[k].salesAmount;
  }

  /** The metrics of some rows by their columns; only amounts of paid rows are paid sales. */
  lemma {:induction false} MetricsByColumn(rows: map<Key, SalesRow>)
    ensures var m := Metrics(rows);
      && m.totalOrders == |set k | k in rows :: rows[k].orderId|
      && m.totalItems == Total(map k | k in rows :: rows[k].quantity)
      && m.totalSales == Total(map k | k in rows :: rows[k].salesAmount)
      && m.paidSales == Total(map k | k in rows && rows[k].paymentStatus == "paid" :: rows[k].salesAmount)
      && (forall k :: k in rows ==> rows[k].loadedAt <= m.maxLoaded)
      && (rows != map[] ==> exists k :: k in rows && rows[k].loadedAt == m.maxLoaded)
  {
    hide PaidAmounts, Total, HighWater;
    PaidTotal(rows);
    assert LoadTimes(rows).Keys == rows.Keys;
    assert forall k :: k in rows ==> LoadTimes(rows)[k] <= RowsHighWater(rows);
    if rows != map[] {
      RowsHighWaterIsAttained(rows);
    }
  }

  /** A sale at `t` belongs to the day whose 24 hours hold `t`. */
  predicate SoldOn(t: int, d: Date) { d.day * 86_400_000_000 <= t < (d.day + 1) * 86_400_000_000 }

  lemma {:induction false} DayHours(t: int, d: Date)
    ensures Day(t) == d <==> SoldOn(t, d)
  {
  }

  /** The full aggregate has a row for exactly the days with sales, computed from the sales of its 24 hours. */
  lemma {:induction false} FullDailyByHours(rows: map<Key, SalesRow>, d: Date)
    ensures d in FullDaily(rows) <==> exists k :: k in rows && SoldOn(rows[k].orderDate, d)
    ensures d in FullDaily(rows) ==>
      FullDaily(rows)[d] == Metrics(map k | k in rows && SoldOn(rows[k].orderDate, d) :: rows[k])
  {
    hide Day, SoldOn, Metrics;
    forall k | k in rows ensures Day(rows[k].orderDate) == d <==> SoldOn(rows[k].orderDate, d) {
      DayHours(rows[k].orderDate, d);
    }
    assert RowsOn(rows, d) == map k | k in rows && SoldOn(rows[k].orderDate, d) :: rows[k];
  }

  /** The keys of the rows on the given days. */
  ghost function KeysOn(rows: map<Key, SalesRow>, days: set<Date>): set<Key> {
    set k | k in rows && Day(rows[k].orderDate) in days
  }

  ghost function DaySums(rows: map<Key, SalesRow>, values: map<Key, int>, days: set<Date>): map<Date, int> {
    map d | d in days :: Total(Within(values, KeysOn(rows, {d})))
  }

  /** One day's rows and the other days' rows make up the rows of all days. */
  lemma {:induction false} OneDayApart(rows: map<Key, SalesRow>, values: map<Key, int>, days: set<Date>, d: Date)
    requires d in days
    ensures var all := Within(values, KeysOn(rows, days));
      && Within(all, KeysOn(rows, {d})) == Within(values, KeysOn(rows, {d}))
      && all - KeysOn(rows, {d}) == Within(values, KeysOn(rows, days - {d}))
  {
    hide Day;
  }

  lemma {:induction false} DaysAddUp(rows: map<Key, SalesRow>, values: map<Key, int>, days: set<Date>)
    ensures Total(DaySums(rows, values, days)) == Total(Within(values, KeysOn(rows, days)))
    decreases |days|
  {
    hide Day;
    if days == {} {
      assert DaySums(rows, values, days) == map[];
      assert Within(values, KeysOn(rows, days)) == map[];
    } else {
      hide KeysOn, Within, Total;
      var d :| d in days;
      DaysAddUp(rows, values, days - {d});
      TotalWithout(DaySums(rows, values, days), d);
      assert DaySums(rows, values, days) - {d} == DaySums(rows, values, days - {d});
      TotalSplit(Within(values, KeysOn(rows, days)), KeysOn(rows, {d}));
      OneDayApart(rows, values, days, d);
    }
  }

  lemma {:induction false} AllDays(rows: map<Key, SalesRow>, values: map<Key, int>)
    requires values.Keys == rows.Keys
    ensures Within(values, KeysOn(rows, Days(rows))) == values
  {
    hide Day;
  }

  lemma {:induction false} DayColumns(rows: map<Key, SalesRow>, d: Date)
    ensures Quantities(RowsOn(rows, d)) == Within(Quantities(rows), KeysOn(rows, {d}))
    ensures Amounts(RowsOn(rows, d)) == Within(Amounts(rows), KeysOn(rows, {d}))
    ensures PaidAmounts(RowsOn(rows, d)) == Within(PaidAmounts(rows), KeysOn(rows, {d}))
  {
    hide Day;
  }

  lemma {:induction false} DayTotals(rows: map<Key, SalesRow>)
    ensures var daily := FullDaily(rows);
      && (map d | d in daily :: daily[d].totalItems) == DaySums(rows, Quantities(rows), Days(rows))
      && (map d | d in daily :: daily[d].totalSales) == DaySums(rows, Amounts(rows), Days(rows))
      && (map d | d in daily :: daily[d].paidSales) == DaySums(rows, PaidAmounts(rows), Days(rows))
  {
    hide Day, Days, RowsOn, Within, KeysOn, Quantities, Amounts, PaidAmounts, Total, RowsHighWater;
    forall d ensures
      && Quantities(RowsOn(rows, d)) == Within(Quantities(rows), KeysOn(rows, {d}))
      && Amounts(RowsOn(rows, d)) == Within(Amounts(rows), KeysOn(rows, {d}))
      && PaidAmounts(RowsOn(rows, d)) == Within(PaidAmounts(rows), KeysOn(rows, {d}))
    {
      DayColumns(rows, d);
    }
  }

  /** Conservation: the daily quantities, amounts and paid amounts add up to those of all sales and all paid sales. */
  lemma {:induction false} DaysConserveTotals(rows: map<Key, SalesRow>)
    ensures var daily := FullDaily(rows);
      && Total(map d | d in daily :: daily[d].totalItems) == Total(map k | k in rows :: rows[k].quantity)
      && Total(map d | d in daily :: daily[d].totalSales) == Total(map k | k in rows :: rows[k].salesAmount)
      && Total(map d | d in daily :: daily[d].paidSales)
         == Total(map k | k in rows && rows[k].paymentStatus == "paid" :: rows[k].salesAmount)
  {
    hide FullDaily, DaySums, Day, Days, KeysOn, Within, Total;
    DayTotals(rows);
    DaysAddUp(rows, Quantities(rows), Days(rows));
    DaysAddUp(rows, Amounts(rows), Days(rows));
    DaysAddUp(rows, PaidAmounts(rows), Days(rows));
    AllDays(rows, Quantities(rows));
    AllDays(rows, Amounts(rows));
    AllDays(rows, PaidAmounts(rows));
    PaidTotal(rows);
  }

  // ----- The incremental model -----

  function MaxLoads(daily: map<Date, DayRow>): map<Date, int> {
    map d | d in daily :: daily[d].maxLoaded
  }

  ghost function DailyHighWater(daily: map<Date, DayRow>): int { HighWater(MaxLoads(daily)) }

  /** Days of facts above a high water, and the days they were moved away from. */
  function DaysAbove(fact: map<Key, FactRow>, h: int): set<Date> {
    (set k | k in fact && fact[k].sale.loadedAt > h :: Day(fact[k].sale.orderDate)) +
    (set k | k in fact && fact[k].sale.loadedAt > h && fact[k].previousDate.Some? :: Day(fact[k].previousDate.value))
  }

  /** affected_dates: the days above the daily table's own high water; on a first build, all days. */
  ghost function AffectedDates(fact: map<Key, FactRow>, daily: map<Date, DayRow>, incremental: bool): set<Date> {
    if incremental then DaysAbove(fact, DailyHighWater(daily)) else Days(Sales(fact))
  }

  /**
   * A day is affected iff some fact loaded later than every row of the daily table was computed from
   * is sold on it, or was moved away from it.
   */
  lemma {:induction false} AffectedByLoads(fact: map<Key, FactRow>, daily: map<Date, DayRow>, d: Date)
    ensures d in AffectedDates(fact, daily, true) <==>
      exists k :: k in fact && IsLater(fact[k].sale.loadedAt, daily)
        && (|| SoldOn(fact[k].sale.orderDate, d)
            || (fact[k].previousDate.Some? && SoldOn(fact[k].previousDate.value, d)))
  {
    hide Day, SoldOn, HighWater;
    var loads := MaxLoads(daily);
    assert loads.Keys == daily.Keys;
    forall t ensures t > HighWater(loads) <==> IsLater(t, daily) {
      if loads != map[] {
        var e :| e in loads && loads[e] == HighWater(loads);
        assert daily[e].maxLoaded == HighWater(loads);
      }
      assert forall e :: e in daily ==> daily[e].maxLoaded == loads[e];
    }
    forall k | k in fact
      ensures Day(fact[k].sale.orderDate) == d <==> SoldOn(fact[k].sale.orderDate, d)
      ensures fact[k].previousDate.Some? ==> (Day(fact[k].previousDate.value) == d <==> SoldOn(fact[k].previousDate.value, d))
    {
      DayHours(fact[k].sale.orderDate, d);
      if fact[k].previousDate.Some? { DayHours(fact[k].previousDate.value, d); }
    }
  }

  /** `t` is after every load time in the daily table, or after 1900 if it is empty. */
  ghost predicate IsLater(t: int, daily: map<Date, DayRow>) {
    if daily == map[] then t > EPOCH else forall e :: e in daily ==> daily[e].maxLoaded < t
  }

  /** The inner join with fact_sales: an affected day without sales yields no row. */
  ghost function DailyMetrics(fact: map<Key, FactRow>, affected: set<Date>): map<Date, DayRow> {
    map d | d in affected && d in Days(Sales(fact)) :: Metrics(RowsOn(Sales(fact), d))
  }

  /** The post-hook: days without any fact are deleted. */
  function DeleteEmptyDays(fact: map<Key, FactRow>, daily: map<Date, DayRow>): map<Date, DayRow> {
    map d | d in daily && d in Days(Sales(fact)) :: daily[d]
  }

  /** One run: MERGE by sales_date, then the post-hook. */
  ghost function DailyRun(fact: map<Key, FactRow>, daily: map<Date, DayRow>, incremental: bool): map<Date, DayRow> {
    DeleteEmptyDays(fact, daily + DailyMetrics(fact, AffectedDates(fact, daily, incremental)))
  }

  // ----- What each day was computed from -----

  /** For every day of the daily table, the fact rows from which its row was last computed. */
  type Basis = map<Date, map<Key, SalesRow>>

  ghost function DailyOf(basis: Basis): map<Date, DayRow> {
    map d | d in basis :: Metrics(basis[d])
  }

  /** What a run leaves: affected days are computed anew, other days that still have facts stay. */
  ghost function BasisRun(fact: map<Key, FactRow>, basis: Basis, incremental: bool): Basis {
    var affected := AffectedDates(fact, DailyOf(basis), incremental);
    map d | d in Days(Sales(fact)) && (d in affected || d in basis) ::
      if d in affected then RowsOn(Sales(fact), d) else basis[d]
  }

  lemma {:induction false} RunOfBasis(fact: map<Key, FactRow>, basis: Basis, incremental: bool)
    ensures DailyRun(fact, DailyOf(basis), incremental) == DailyOf(BasisRun(fact, basis, incremental))
  {
    hide Metrics, Day, AffectedDates, RowsOn;
  }

  ghost predicate SubRows(part: map<Key, SalesRow>, rows: map<Key, SalesRow>) {
    forall k :: k in part ==> k in rows && rows[k] == part[k]
  }

  /**
   * The daily table after a run over `rows`, right or wrong: it has exactly the days of `rows`,
   * and each day was computed from its present rows and perhaps others that have left since.
   */
  ghost predicate BasisInv(basis: Basis, rows: map<Key, SalesRow>) {
    && basis.Keys == Days(rows)
    && (forall d :: d in basis ==> SubRows(RowsOn(rows, d), basis[d]))
    && (forall d :: d in basis ==> RowsHighWater(basis[d]) <= RowsHighWater(rows))
  }

  /** The days whose row was computed from rows that the day no longer has. */
  ghost function Stale(basis: Basis, rows: map<Key, SalesRow>): set<Date> {
    set d | d in basis && basis[d] != RowsOn(rows, d)
  }

  // ----- What changed since the last daily run -----

  /** `rows` is what fact_sales held at the last daily run; later fact rows are above its high water. */
  ghost predicate Since(rows: map<Key, SalesRow>, fact: map<Key, FactRow>) {
    && rows.Keys <= fact.Keys
    && forall k :: k in fact ==>
         (k in rows && rows[k] == fact[k].sale) || fact[k].sale.loadedAt > RowsHighWater(rows)
  }

  /** Item `k` has left day `d` since the last daily run. */
  predicate LeftDay(rows: map<Key, SalesRow>, fact: map<Key, FactRow>, k: Key, d: Date) {
    && k in rows && Day(rows[k].orderDate) == d
    && k in fact && Day(fact[k].sale.orderDate) != d
  }

  ghost predicate Left(rows: map<Key, SalesRow>, fact: map<Key, FactRow>, d: Date) {
    exists k :: LeftDay(rows, fact, k, d)
  }

  lemma {:induction false} LoadBound(rows: map<Key, SalesRow>, k: Key)
    requires k in rows
    ensures rows[k].loadedAt <= RowsHighWater(rows)
  {
    assert k in LoadTimes(rows);
  }

  lemma {:induction false} RowsHighWaterIsAttained(rows: map<Key, SalesRow>)
    requires rows != map[]
    ensures exists k :: k in rows && RowsHighWater(rows) == rows[k].loadedAt
  {
    hide HighWater;
    var times := LoadTimes(rows);
    var k0 :| k0 in rows;
    assert k0 in times;
    var k :| k in times && times[k] == HighWater(times);
  }

  /** The high water of some of the rows is at most that of all. */
  lemma {:induction false} PartHighWater(part: map<Key, SalesRow>, rows: map<Key, SalesRow>)
    requires SubRows(part, rows) && part != map[]
    ensures RowsHighWater(part) <= RowsHighWater(rows)
  {
    hide RowsHighWater;
    RowsHighWaterIsAttained(part);
    var k :| k in part && RowsHighWater(part) == part[k].loadedAt;
    LoadBound(rows, k);
  }

  lemma {:induction false} DayHasRows(rows: map<Key, SalesRow>, d: Date)
    ensures d in Days(rows) <==> RowsOn(rows, d) != map[]
  {
    hide Day;
    if d in Days(rows) {
      var k :| k in rows && Day(rows[k].orderDate) == d;
      assert k in RowsOn(rows, d);
    }
    if RowsOn(rows, d) != map[] {
      var k :| k in RowsOn(rows, d);
    }
  }

  /** Even with stale days, the daily table's high water is that of the facts it was last run on. */
  lemma {:induction false} BasisHighWater(basis: Basis, rows: map<Key, SalesRow>)
    requires BasisInv(basis, rows)
    ensures DailyHighWater(DailyOf(basis)) == RowsHighWater(rows)
  {
    hide RowsHighWater, HighWater, Day, RowsOn, Total, SubRows;
    var loads := MaxLoads(DailyOf(basis));
    if rows == map[] {
      assert Days(rows) == {};
      assert basis == map[];
      assert loads == map[];
      EmptyHighWater(rows);
    } else {
      RowsHighWaterIsAttained(rows);
      var k :| k in rows && RowsHighWater(rows) == rows[k].loadedAt;
      var d := Day(rows[k].orderDate);
      assert d in basis;
      assert d in loads;
      NewestDay(basis, rows, k);
      HighWaterIs(loads, d);
    }
  }

  lemma {:induction false} EmptyHighWater(rows: map<Key, SalesRow>)
    requires rows == map[]
    ensures RowsHighWater(rows) == EPOCH
  {
    assert LoadTimes(rows).Keys == rows.Keys;
  }

  /** The day of the newest row has the greatest maximum load time of all days. */
  lemma {:induction false} NewestDay(basis: Basis, rows: map<Key, SalesRow>, k: Key)
    requires BasisInv(basis, rows) && k in rows && RowsHighWater(rows) == rows[k].loadedAt
    ensures Day(rows[k].orderDate) in basis
    ensures RowsHighWater(basis[Day(rows[k].orderDate)]) == RowsHighWater(rows)
    ensures forall e :: e in basis ==> RowsHighWater(basis[e]) <= RowsHighWater(rows)
  {
    hide RowsHighWater, Day;
    var d := Day(rows[k].orderDate);
    assert k in RowsOn(rows, d);
    LoadBound(basis[d], k);
  }

  /** A day that is not affected has gained no row and changed none: it can only have lost rows. */
  lemma {:induction false} UnaffectedDay(rows: map<Key, SalesRow>, fact: map<Key, FactRow>, d: Date)
    requires Since(rows, fact) && d !in DaysAbove(fact, RowsHighWater(rows))
    ensures SubRows(RowsOn(Sales(fact), d), RowsOn(rows, d))
    ensures RowsOn(Sales(fact), d) == RowsOn(rows, d) <==> !Left(rows, fact, d)
  {
    hide Day, RowsHighWater;
    forall k | k in fact && Day(fact[k].sale.orderDate) == d
      ensures k in rows && rows[k] == fact[k].sale
    {
    }
    if !Left(rows, fact, d) {
      forall k | k in RowsOn(rows, d) ensures k in RowsOn(Sales(fact), d) {
        assert !LeftDay(rows, fact, k, d);
      }
    } else {
      var k :| LeftDay(rows, fact, k, d);
      assert k in RowsOn(rows, d) && k !in RowsOn(Sales(fact), d);
    }
  }

  /** The fact table's high water does not fall below what it was at the last daily run. */
  lemma {:induction false} HighWaterRises(rows: map<Key, SalesRow>, fact: map<Key, FactRow>)
    requires Since(rows, fact) && forall k :: k in fact ==> EPOCH < fact[k].sale.loadedAt
    ensures RowsHighWater(rows) <= RowsHighWater(Sales(fact))
  {
    hide RowsHighWater;
    if rows != map[] {
      RowsHighWaterIsAttained(rows);
      var k :| k in rows && RowsHighWater(rows) == rows[k].loadedAt;
      LoadBound(Sales(fact), k);
    } else {
      EmptyHighWater(rows);
      if fact != map[] {
        var k :| k in fact;
        LoadBound(Sales(fact), k);
      } else {
        EmptyHighWater(Sales(fact));
      }
    }
  }

  /** A day with facts is in the table after the run, from its own rows if affected and as before otherwise. */
  lemma {:induction false} BasisOnDay(rows: map<Key, SalesRow>, fact: map<Key, FactRow>, basis: Basis, d: Date)
    requires BasisInv(basis, rows) && Since(rows, fact) && d in Days(Sales(fact))
    ensures var basis' := BasisRun(fact, basis, true);
      && d in basis'
      && (d in DaysAbove(fact, RowsHighWater(rows)) ==> basis'[d] == RowsOn(Sales(fact), d))
      && (d !in DaysAbove(fact, RowsHighWater(rows)) ==> d in basis && basis'[d] == basis[d])
  {
    hide Day, RowsOn, Metrics, RowsHighWater, DaysAbove, Since, DailyHighWater;
    BasisHighWater(basis, rows);
    if d !in DaysAbove(fact, RowsHighWater(rows)) {
      UnaffectedDay(rows, fact, d);
      DayHasRows(Sales(fact), d);
      DayHasRows(rows, d);
      var k :| k in RowsOn(Sales(fact), d);
      assert k in RowsOn(rows, d);
    }
  }

  lemma {:induction false} SubRowsCompose(a: map<Key, SalesRow>, b: map<Key, SalesRow>, c: map<Key, SalesRow>)
    requires SubRows(a, b) && SubRows(b, c)
    ensures SubRows(a, c)
    ensures a == c <==> a == b && b == c
  {
    if a == c {
      assert forall k :: k in b ==> k in a;
      assert a == b;
    }
  }

  lemma {:induction false} RowsOnAreRows(rows: map<Key, SalesRow>, d: Date)
    ensures SubRows(RowsOn(rows, d), rows) && SubRows(RowsOn(rows, d), RowsOn(rows, d))
  {
    hide Day;
  }

  /** Every run, also one that forgets a day, keeps the daily invariant. */
  lemma {:induction false} BasisKept(rows: map<Key, SalesRow>, fact: map<Key, FactRow>, basis: Basis)
    requires BasisInv(basis, rows) && Since(rows, fact)
    requires forall k :: k in fact ==> EPOCH < fact[k].sale.loadedAt
    ensures BasisInv(BasisRun(fact, basis, true), Sales(fact))
  {
    hide Day, RowsOn, Metrics, RowsHighWater, DaysAbove, Since, SubRows, AffectedDates;
    HighWaterRises(rows, fact);
    var basis' := BasisRun(fact, basis, true);
    forall d | d in Days(Sales(fact)) ensures d in basis' {
      BasisOnDay(rows, fact, basis, d);
    }
    forall d | d in basis'
      ensures SubRows(RowsOn(Sales(fact), d), basis'[d])
      ensures RowsHighWater(basis'[d]) <= RowsHighWater(Sales(fact))
    {
      BasisOnDay(rows, fact, basis, d);
      RowsOnAreRows(Sales(fact), d);
      DayHasRows(Sales(fact), d);
      PartHighWater(RowsOn(Sales(fact), d), Sales(fact));
      if d !in DaysAbove(fact, RowsHighWater(rows)) {
        UnaffectedDay(rows, fact, d);
        SubRowsCompose(RowsOn(Sales(fact), d), RowsOn(rows, d), basis[d]);
      }
    }
  }

  /**
   * The stale days after any run: those that were stale or have been left since, as far as
   * they are neither affected nor empty now.
   */
  lemma {:induction false} StaleAfterRun(rows: map<Key, SalesRow>, fact: map<Key, FactRow>, basis: Basis, d: Date)
    requires BasisInv(basis, rows) && Since(rows, fact)
    ensures d in Stale(BasisRun(fact, basis, true), Sales(fact)) <==>
      && d in Days(Sales(fact)) && d !in DaysAbove(fact, RowsHighWater(rows))
      && (d in Stale(basis, rows) || Left(rows, fact, d))
  {
    hide Day, RowsOn, Metrics, RowsHighWater, DaysAbove, Since, SubRows, AffectedDates, Left;
    if d in Days(Sales(fact)) {
      BasisOnDay(rows, fact, basis, d);
      if d !in DaysAbove(fact, RowsHighWater(rows)) {
        UnaffectedDay(rows, fact, d);
        SubRowsCompose(RowsOn(Sales(fact), d), RowsOn(rows, d), basis[d]);
      }
    }
  }

  lemma {:induction false} FullDays(rows: map<Key, SalesRow>)
    ensures FullDaily(rows).Keys == Days(rows)
    ensures forall d :: d in FullDaily(rows) ==> FullDaily(rows)[d] == Metrics(RowsOn(rows, d))
  {
    hide Day, Metrics, RowsOn;
  }

  /** Every day that is not stale has exactly the metrics of its facts. */
  lemma {:induction false} FreshDaysAreExact(basis: Basis, rows: map<Key, SalesRow>)
    requires BasisInv(basis, rows)
    ensures DailyOf(basis).Keys == FullDaily(rows).Keys
    ensures forall d :: d in basis && d !in Stale(basis, rows) ==>
      d in FullDaily(rows) && DailyOf(basis)[d] == FullDaily(rows)[d]
    ensures Stale(basis, rows) == {} ==> DailyOf(basis) == FullDaily(rows)
  {
    hide Day, Metrics, RowsOn;
  }

  // ----- When a stale day is harmless -----

  /** Amounts are what the sales relation computes. */
  ghost predicate Priced(rows: map<Key, SalesRow>) {
    forall k :: k in rows ==> rows[k].salesAmount == rows[k].quantity * rows[k].unitPrice
  }

  /** CHECK (quantity >= 0) of the source. */
  ghost predicate NonNegative(rows: map<Key, SalesRow>) {
    forall k :: k in rows ==> rows[k].quantity >= 0
  }

  /** The rows that left sold nothing, their orders still sell on the day, and a row as new as each is still there. */
  ghost predicate Harmless(was: map<Key, SalesRow>, now: map<Key, SalesRow>) {
    forall k :: k in was && k !in now ==>
      && was[k].quantity == 0
      && SellsOrder(now, was[k].orderId)
      && (exists j :: j in now && now[j].loadedAt >= was[k].loadedAt)
  }

  /** A column's sum does not notice the rows that left exactly when they sum to zero. */
  lemma {:induction false} ColumnLoss(was: map<Key, int>, now: map<Key, int>)
    requires forall k :: k in now ==> k in was && was[k] == now[k]
    ensures Total(was) == Total(now) + Total(was - now.Keys)
  {
    TotalSplit(was, now.Keys);
    assert Within(was, now.Keys) == now;
  }

  lemma {:induction false} QuantityLoss(was: map<Key, SalesRow>, now: map<Key, SalesRow>)
    requires SubRows(now, was) && NonNegative(was)
    ensures Total(Quantities(was)) == Total(Quantities(now)) <==>
      forall k :: k in was && k !in now ==> was[k].quantity == 0
  {
    hide Total;
    var lost := Quantities(was) - Quantities(now).Keys;
    ColumnLoss(Quantities(was), Quantities(now));
    ZeroTotal(lost);
    assert forall k :: k in was && k !in now ==> k in lost && lost[k] == was[k].quantity;
  }

  lemma {:induction false} AmountLoss(was: map<Key, SalesRow>, now: map<Key, SalesRow>)
    requires SubRows(now, was) && Priced(was)
    requires forall k :: k in was && k !in now ==> was[k].quantity == 0
    ensures Total(Amounts(was)) == Total(Amounts(now))
    ensures Total(PaidAmounts(was)) == Total(PaidAmounts(now))
  {
    hide Total;
    ColumnLoss(Amounts(was), Amounts(now));
    ColumnLoss(PaidAmounts(was), PaidAmounts(now));
    forall k | k in was && k !in now ensures was[k].salesAmount == 0 {
      assert was[k].salesAmount == 0 * was[k].unitPrice;
    }
    TotalOfZeros(Amounts(was) - Amounts(now).Keys);
    TotalOfZeros(PaidAmounts(was) - PaidAmounts(now).Keys);
  }

  ghost predicate SellsOrder(rows: map<Key, SalesRow>, o: Key) {
    exists j :: j in rows && rows[j].orderId == o
  }

  lemma {:induction false} OrderIsSold(rows: map<Key, SalesRow>, o: Key)
    ensures o in OrderIds(rows) <==> SellsOrder(rows, o)
  {
    if o in OrderIds(rows) {
      var k :| k in rows && rows[k].orderId == o;
    }
    if SellsOrder(rows, o) {
      var k :| k in rows && rows[k].orderId == o;
      assert rows[k].orderId in OrderIds(rows);
    }
  }

  lemma {:induction false} OrderLoss(was: map<Key, SalesRow>, now: map<Key, SalesRow>)
    requires SubRows(now, was)
    ensures |OrderIds(was)| == |OrderIds(now)| <==>
      forall k :: k in was && k !in now ==> SellsOrder(now, was[k].orderId)
  {
    hide OrderIds;
    forall o ensures o in OrderIds(now) <==> SellsOrder(now, o) { OrderIsSold(now, o); }
    forall o ensures o in OrderIds(was) <==> SellsOrder(was, o) { OrderIsSold(was, o); }
    forall o | SellsOrder(now, o) ensures SellsOrder(was, o) {
      var k :| k in now && now[k].orderId == o;
      assert k in was;
    }
    SubsetSize(OrderIds(now), OrderIds(was));
    forall k | k in was ensures SellsOrder(was, was[k].orderId) {
    }
    forall k | k in now ensures SellsOrder(now, now[k].orderId) {
    }
    if forall k :: k in was && k !in now ==> SellsOrder(now, was[k].orderId) {
      forall o | SellsOrder(was, o) ensures SellsOrder(now, o) {
        var k :| k in was && was[k].orderId == o;
      }
    }
  }

  lemma {:induction false} LoadLoss(was: map<Key, SalesRow>, now: map<Key, SalesRow>)
    requires SubRows(now, was) && now != map[]
    ensures RowsHighWater(was) == RowsHighWater(now) <==>
      forall k :: k in was && k !in now ==> exists j :: j in now && now[j].loadedAt >= was[k].loadedAt
  {
    hide RowsHighWater;
    PartHighWater(now, was);
    RowsHighWaterIsAttained(now);
    RowsHighWaterIsAttained(was);
    var n :| n in now && RowsHighWater(now) == now[n].loadedAt;
    var w :| w in was && RowsHighWater(was) == was[w].loadedAt;
    forall k | k in was ensures was[k].loadedAt <= was[w].loadedAt {
      LoadBound(was, k);
    }
    forall k | k in now ensures now[k].loadedAt <= now[n].loadedAt {
      LoadBound(now, k);
    }
    if w in now {
      LoadBound(now, w);
    }
  }

  /** A day computed from rows that have left shows the right metrics exactly when their leaving is harmless. */
  lemma {:induction false} HarmlessIsExact(was: map<Key, SalesRow>, now: map<Key, SalesRow>)
    requires SubRows(now, was) && now != map[] && NonNegative(was) && Priced(was)
    ensures Metrics(was) == Metrics(now) <==> Harmless(was, now)
  {
    hide Total, RowsHighWater, OrderIds, Quantities, Amounts, PaidAmounts, SubRows;
    QuantityLoss(was, now);
    OrderLoss(was, now);
    LoadLoss(was, now);
    if forall k :: k in was && k !in now ==> was[k].quantity == 0 {
      AmountLoss(was, now);
    }
  }

  ghost predicate Plain(basis: Basis) {
    forall d :: d in basis ==> NonNegative(basis[d]) && Priced(basis[d])
  }

  /**
   * The exact condition, for any daily table that runs can leave behind and any quantities the
   * source accepts: the table equals the full recompute iff every stale day is harmless.
   */
  lemma {:induction false} DailyIsExact(basis: Basis, rows: map<Key, SalesRow>)
    requires BasisInv(basis, rows) && Plain(basis)
    ensures DailyOf(basis) == FullDaily(rows) <==>
      forall d :: d in Stale(basis, rows) ==> Harmless(basis[d], RowsOn(rows, d))
  {
    hide Day, Metrics, RowsOn, Harmless, NonNegative, Priced, SubRows;
    FullDays(rows);
    forall d | d in basis
      ensures DailyOf(basis)[d] == FullDaily(rows)[d] <==>
        d in Stale(basis, rows) ==> Harmless(basis[d], RowsOn(rows, d))
    {
      DayHasRows(rows, d);
      HarmlessIsExact(basis[d], RowsOn(rows, d));
    }
    assert DailyOf(basis).Keys == FullDaily(rows).Keys;
  }

  // ----- What the project's own check sees -----

  /** The columns that assert_daily_sales_matches_fact compares. */
  function Compared(r: DayRow): DayRow { r.(maxLoaded := 0) }

  /** The assertion query returns no row. */
  ghost predicate PassesCheck(daily: map<Date, DayRow>, rows: map<Key, SalesRow>) {
    && daily.Keys == Days(rows)
    && forall d :: d in daily ==> Compared(daily[d]) == Compared(Metrics(RowsOn(rows, d)))
  }

  /** The rows that left sold nothing, and their orders still sell on the day. */
  ghost predicate Unnoticed(was: map<Key, SalesRow>, now: map<Key, SalesRow>) {
    forall k :: k in was && k !in now ==> was[k].quantity == 0 && SellsOrder(now, was[k].orderId)
  }

  lemma {:induction false} UnnoticedIsExact(was: map<Key, SalesRow>, now: map<Key, SalesRow>)
    requires SubRows(now, was) && NonNegative(was) && Priced(was)
    ensures Compared(Metrics(was)) == Compared(Metrics(now)) <==> Unnoticed(was, now)
  {
    hide Total, RowsHighWater, OrderIds, Quantities, Amounts, PaidAmounts, SubRows;
    QuantityLoss(was, now);
    OrderLoss(was, now);
    if forall k :: k in was && k !in now ==> was[k].quantity == 0 {
      AmountLoss(was, now);
    }
  }

  /** The assertion passes exactly when no stale day has lost sold items or an order. */
  lemma {:induction false} CheckIsExact(basis: Basis, rows: map<Key, SalesRow>)
    requires BasisInv(basis, rows) && Plain(basis)
    ensures PassesCheck(DailyOf(basis), rows) <==>
      forall d :: d in Stale(basis, rows) ==> Unnoticed(basis[d], RowsOn(rows, d))
  {
    hide Day, Days, Metrics, Compared, RowsOn, Unnoticed, NonNegative, Priced, SubRows;
    forall d | d in basis
      ensures Compared(DailyOf(basis)[d]) == Compared(Metrics(RowsOn(rows, d))) <==>
        d in Stale(basis, rows) ==> Unnoticed(basis[d], RowsOn(rows, d))
    {
      UnnoticedIsExact(basis[d], RowsOn(rows, d));
    }
    assert DailyOf(basis).Keys == basis.Keys;
  }

  // ----- Positive quantities -----

  lemma {:induction false} LostRowExists(was: map<Key, SalesRow>, now: map<Key, SalesRow>)
    requires SubRows(now, was) && was != now
    ensures exists k :: k in was && k !in now
  {
    assert was.Keys != now.Keys;
  }

  /** With positive quantities no stale day is harmless. */
  lemma {:induction false} StaleDaysAreWrong(basis: Basis, rows: map<Key, SalesRow>)
    requires BasisInv(basis, rows) && Plain(basis)
    requires forall d, k :: d in basis && k in basis[d] ==> basis[d][k].quantity > 0
    ensures DailyOf(basis) == FullDaily(rows) <==> Stale(basis, rows) == {}
  {
    hide Day, Metrics, NonNegative, Priced, FullDaily, DailyOf;
    DailyIsExact(basis, rows);
    forall d | d in Stale(basis, rows) ensures !Harmless(basis[d], RowsOn(rows, d)) {
      LostRowExists(basis[d], RowsOn(rows, d));
    }
  }

  /** A full recompute is a daily table without stale days. */
  lemma {:induction false} FullIsFresh(rows: map<Key, SalesRow>) returns (basis: Basis)
    ensures BasisInv(basis, rows) && Stale(basis, rows) == {} && DailyOf(basis) == FullDaily(rows)
    ensures forall d :: d in basis ==> basis[d] == RowsOn(rows, d)
  {
    hide Day, Metrics, RowsHighWater;
    basis := map d | d in Days(rows) :: RowsOn(rows, d);
    forall d | d in basis ensures RowsHighWater(basis[d]) <= RowsHighWater(rows) {
      DayHasRows(rows, d);
      PartHighWater(RowsOn(rows, d), rows);
    }
  }

  // ----- Orders that keep their items -----

  /** All rows of an order have its date. */
  ghost predicate OneDate(rows: map<Key, SalesRow>) {
    forall j, k :: j in rows && k in rows && rows[j].orderId == rows[k].orderId ==> rows[j].orderDate == rows[k].orderDate
  }

  /** An order that is sold on the day no more shows in the order count, whatever its quantities. */
  lemma {:induction false} LostOrderShows(was: map<Key, SalesRow>, now: map<Key, SalesRow>, k: Key)
    requires SubRows(now, was) && k in was && k !in now && !SellsOrder(now, was[k].orderId)
    ensures Metrics(was).totalOrders != Metrics(now).totalOrders
  {
    hide Total, RowsHighWater, OrderIds;
    OrderLoss(was, now);
  }

  /**
   * If rows keep their order and an order has one date, a stale day has lost an order: an item
   * that left took all rows of its order along.
   */
  lemma {:induction false} StaleDayLostOrder(basis: Basis, rows: map<Key, SalesRow>, d: Date)
    requires BasisInv(basis, rows) && OneDate(rows) && d in Stale(basis, rows)
    requires forall k :: k in basis[d] ==> k in rows && rows[k].orderId == basis[d][k].orderId
    ensures DailyOf(basis)[d].totalOrders != Metrics(RowsOn(rows, d)).totalOrders
  {
    hide Day, Metrics, RowsHighWater;
    var now := RowsOn(rows, d);
    LostRowExists(basis[d], now);
    var k :| k in basis[d] && k !in now;
    forall j | j in now ensures now[j].orderId != basis[d][k].orderId {
    }
    LostOrderShows(basis[d], now, k);
  }

  /** Then the table, and already the check, is exact iff no day is stale, whatever the quantities. */
  lemma {:induction false} ExactIffFresh(basis: Basis, rows: map<Key, SalesRow>)
    requires BasisInv(basis, rows) && OneDate(rows)
    requires forall d, k :: d in basis && k in basis[d] ==> k in rows && rows[k].orderId == basis[d][k].orderId
    ensures DailyOf(basis) == FullDaily(rows) <==> Stale(basis, rows) == {}
    ensures PassesCheck(DailyOf(basis), rows) <==> Stale(basis, rows) == {}
  {
    hide Metrics, RowsOn, BasisInv, OneDate, Days, FullDaily;
    FreshDaysAreExact(basis, rows);
    FullDays(rows);
    assert DailyOf(basis).Keys == basis.Keys;
    if Stale(basis, rows) != {} {
      var d :| d in Stale(basis, rows);
      StaleDayLostOrder(basis, rows, d);
      assert d in DailyOf(basis);
    }
  }

  // ----- Which runs leave no stale day behind -----

  /** On a first build the run is the full recompute. */
  lemma {:induction false} FirstBuild(fact: map<Key, FactRow>)
    ensures DailyRun(fact, map[], false) == FullDaily(Sales(fact))
  {
    hide Metrics, Day, RowsOn;
  }

  /** Every day left behind is recomputed or has no sales any more. */
  ghost predicate NoDayForgotten(rows: map<Key, SalesRow>, fact: map<Key, FactRow>) {
    forall k, d :: LeftDay(rows, fact, k, d) ==>
      d in DaysAbove(fact, RowsHighWater(rows)) || d !in Days(Sales(fact))
  }

  /** A run that forgets no day adds no stale day, and an old one goes only when it is affected or empty. */
  lemma {:induction false} NoNewStaleDay(rows: map<Key, SalesRow>, fact: map<Key, FactRow>, basis: Basis)
    requires BasisInv(basis, rows) && Since(rows, fact) && NoDayForgotten(rows, fact)
    ensures Stale(BasisRun(fact, basis, true), Sales(fact))
      == set d | d in Stale(basis, rows) && d in Days(Sales(fact)) && d !in DaysAbove(fact, RowsHighWater(rows))
  {
    hide Stale, BasisRun, BasisInv, Since, DaysAbove, Day, LeftDay, RowsHighWater;
    forall d ensures d in Stale(BasisRun(fact, basis, true), Sales(fact)) <==>
      d in Stale(basis, rows) && d in Days(Sales(fact)) && d !in DaysAbove(fact, RowsHighWater(rows))
    {
      StaleAfterRun(rows, fact, basis, d);
    }
  }

  /** Each moved item still remembers the day it left. */
  ghost predicate MovesRemembered(rows: map<Key, SalesRow>, fact: map<Key, FactRow>) {
    forall k, d :: LeftDay(rows, fact, k, d) ==>
      fact[k].previousDate.Some? && Day(fact[k].previousDate.value) == d
  }

  /** A remembered day is affected, so remembering is enough. */
  lemma {:induction false} RememberedIsEnough(rows: map<Key, SalesRow>, fact: map<Key, FactRow>)
    requires Since(rows, fact) && MovesRemembered(rows, fact)
    ensures NoDayForgotten(rows, fact)
  {
    hide Day, RowsHighWater;
    forall k, d | LeftDay(rows, fact, k, d) ensures d in DaysAbove(fact, RowsHighWater(rows)) {
      assert rows[k] != fact[k].sale;
    }
  }

  /** Right after a daily run no item has left a day. */
  lemma {:induction false} NothingHasLeft(fact: map<Key, FactRow>)
    ensures Since(Sales(fact), fact)
    ensures MovesRemembered(Sales(fact), fact) && NoDayForgotten(Sales(fact), fact)
  {
    hide Day, DaysAbove, RowsHighWater;
  }
}
