/**
 * The two dbt marts as tables that runs update in place: every query of a run is computed
 * here, and proved to be the one the specification names.
 */
module Warehouse {
  import opened Aggregates
  import opened Prelude
  import opened SalesView
  import opened TemporalJoin
  import opened FactSales
  import opened DailySales

  /** The as-of join for one sale. */
  method ResolveSale(versions: set<CustomerVersion>, c: Key, date: int) returns (r: Resolution)
    requires UniqueKeys(versions) && Disjoint(versions)
    ensures r == Resolve(versions, c, date)
  {
    var matches := set v | v in versions && Owns(v, c, date);
    var standIns := set v | v in versions && IsStandIn(versions, c, date, v);
    ghost var found: TemporalJoin.Joined;
    if matches != {} {
      var v :| v in matches;
      r, found := AsOf(v.sk), TemporalJoin.Joined(Some(v), None);
    } else if standIns != {} {
      var v :| v in standIns;
      r, found := EarliestAvailable(v.sk), TemporalJoin.Joined(None, Some(v));
    } else {
      r, found := Unresolved, TemporalJoin.Joined(None, None);
    }
    assert found in JoinedRows(versions, c, date);
  }

  /** The aggregates of one day. */
  method DayMetrics(rows: map<Key, SalesRow>) returns (r: DayRow)
    ensures r == Metrics(rows)
    ensures r.paidSales == Total(map k | k in rows && rows[k].paymentStatus == "paid" :: rows[k].salesAmount)
  {
    PaidTotal(rows);
    var items := SumOf(Quantities(rows));
    var sales := SumOf(Amounts(rows));
    var paid := SumOf(PaidAmounts(rows));
    var newest := MaxOf(LoadTimes(rows));
    r := DayRow(|OrderIds(rows)|, items, sales, paid, newest);
  }

  /** The candidate row of one changed sale. */
  ghost function CandidateRow(
    versions: set<CustomerVersion>, fact: map<Key, FactRow>, k: Key, sale: SalesRow, incremental: bool): FactRow
    requires UniqueKeys(versions) && Disjoint(versions)
  {
    FactRow(sale, PreviousDate(fact, k, sale.orderDate, incremental), Resolve(versions, sale.customerId, sale.orderDate))
  }

  lemma {:induction false} CandidatesByRow(
      versions: set<CustomerVersion>, view: map<Key, SalesRow>, fact: map<Key, FactRow>, incremental: bool,
      resolved: map<Key, FactRow>)
    requires UniqueKeys(versions) && Disjoint(versions)
    requires resolved.Keys == Delta(view, Sales(fact), incremental).Keys
    requires forall k :: k in resolved ==>
      resolved[k] == CandidateRow(versions, fact, k, Delta(view, Sales(fact), incremental)[k], incremental)
    ensures resolved == Candidates(versions, view, fact, incremental)
  {
    hide Delta, Resolve, UniqueKeys, Disjoint, PreviousDate, Sales;
  }

  class SalesMarts {
    var fact: map<Key, FactRow>
    var daily: map<Date, DayRow>

    constructor ()
      ensures fact == map[] && daily == map[]
    {
      fact, daily := map[], map[];
    }

    /** The changed sales: those above the table's own high water. */
    method ChangedSales(view: map<Key, SalesRow>, incremental: bool) returns (delta: map<Key, SalesRow>)
      ensures delta == Delta(view, Sales(fact), incremental)
    {
      hide HighWater;
      var h := MaxOf(LoadTimes(Sales(fact)));
      delta := map k | k in view && (incremental ==> view[k].loadedAt > h) :: view[k];
    }

    /** The resolved candidates, row by row; the previous date is read from the row to be replaced. */
    method ResolvedSales(
        versions: set<CustomerVersion>, view: map<Key, SalesRow>, incremental: bool) returns (resolved: map<Key, FactRow>)
      requires UniqueKeys(versions) && Disjoint(versions)
      ensures resolved == Candidates(versions, view, fact, incremental)
    {
      hide Delta, Resolve, UniqueKeys, Disjoint, Sales, Candidates;
      var delta := ChangedSales(view, incremental);
      resolved := map[];
      var rest := delta.Keys;
      while rest != {}
        invariant rest <= delta.Keys && resolved.Keys == delta.Keys - rest
        invariant forall k :: k in resolved ==>
          k in delta && resolved[k] == CandidateRow(versions, fact, k, delta[k], incremental)
        decreases |rest|
      {
        var k :| k in rest;
        var customer := ResolveSale(versions, delta[k].customerId, delta[k].orderDate);
        resolved := resolved[k := FactRow(delta[k], PreviousDate(fact, k, delta[k].orderDate, incremental), customer)];
        rest := rest - {k};
      }
      CandidatesByRow(versions, view, fact, incremental, resolved);
    }

    /** One run of fact_sales over the sales relation and the customer versions of the moment. */
    method RunFactSales(versions: set<CustomerVersion>, view: map<Key, SalesRow>, incremental: bool)
      requires UniqueKeys(versions) && Disjoint(versions)
      modifies this`fact
      ensures fact == FactRun(versions, view, old(fact), incremental)
      ensures Follows(Sales(old(fact)), view) && old(fact).Keys <= view.Keys ==> Sales(fact) == view
    {
      hide Candidates, Follows, UniqueKeys, Disjoint;
      var resolved := ResolvedSales(versions, view, incremental);
      if Follows(Sales(fact), view) && fact.Keys <= view.Keys {
        FactEqualsView(versions, view, fact, incremental);
      }
      fact := fact + resolved;
    }

    /** affected_dates, from the daily table's own high water. */
    method Affected(incremental: bool) returns (affected: set<Date>)
      ensures affected == AffectedDates(fact, daily, incremental)
    {
      hide DaysAbove, Days, HighWater;
      var h := MaxOf(MaxLoads(daily));
      affected := if incremental then DaysAbove(fact, h) else Days(Sales(fact));
    }

    /** daily_metrics, day by day. */
    method RecomputedDays(affected: set<Date>) returns (metrics: map<Date, DayRow>)
      ensures metrics == DailyMetrics(fact, affected)
    {
      hide Metrics, RowsOn, Days, Sales;
      var days := affected * Days(Sales(fact));
      metrics := map[];
      var rest := days;
      while rest != {}
        invariant rest <= days && metrics.Keys == days - rest
        invariant forall d :: d in metrics ==> metrics[d] == Metrics(RowsOn(Sales(fact), d))
        decreases |rest|
      {
        var d :| d in rest;
        var row := DayMetrics(RowsOn(Sales(fact), d));
        metrics := metrics[d := row];
        rest := rest - {d};
      }
    }

    /** One run of daily_sales: MERGE the recomputed days, then delete days that have no facts left. */
    method RunDailySales(incremental: bool)
      modifies this`daily
      ensures daily == DailyRun(fact, old(daily), incremental)
    {
      hide AffectedDates, DailyMetrics, Days, Sales;
      var affected := Affected(incremental);
      var metrics := RecomputedDays(affected);
      daily := daily + metrics;
      var days := Days(Sales(fact));
      var empty := set d | d in daily && d !in days;
      daily := daily - empty;
    }
  }
}
