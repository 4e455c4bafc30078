/**
 * fact_sales.sql: the incremental fact table over the dbt sales relation, merged by order
 * item, with the memory of the date an item was moved away from.
 */
module FactSales {
  import opened Prelude
  import opened SalesView
  import opened TemporalJoin

  datatype FactRow = FactRow(sale: SalesRow, previousDate: Option<int>, customer: Resolution)

  /** The order, item and payment columns of the table. */
  function Sales(fact: map<Key, FactRow>): map<Key, SalesRow> {
    map k | k in fact :: fact[k].sale
  }

  /** The date of the existing fact, where it is distinct from the new one. */
  function PreviousDate(fact: map<Key, FactRow>, k: Key, date: int, incremental: bool): Option<int> {
    if incremental && k in fact && fact[k].sale.orderDate != date then Some(fact[k].sale.orderDate) else None
  }

  /** The resolved candidates: the source side of the MERGE. */
  ghost function Candidates(
    versions: set<CustomerVersion>, view: map<Key, SalesRow>, fact: map<Key, FactRow>, incremental: bool)
    : map<Key, FactRow>
    requires UniqueKeys(versions) && Disjoint(versions)
  {
    var delta := Delta(view, Sales(fact), incremental);
    map k | k in delta ::
      FactRow(delta[k], PreviousDate(fact, k, delta[k].orderDate, incremental),
              Resolve(versions, delta[k].customerId, delta[k].orderDate))
  }

  /** One run of the model: a first build, or a MERGE by order_item_id. */
  ghost function FactRun(
    versions: set<CustomerVersion>, view: map<Key, SalesRow>, fact: map<Key, FactRow>, incremental: bool)
    : map<Key, FactRow>
    requires UniqueKeys(versions) && Disjoint(versions)
  {
    fact + Candidates(versions, view, fact, incremental)
  }

  /** The MERGE row by row: a candidate replaces its fact and remembers the date it replaced, any other fact stays. */
  lemma {:induction false} FactRunRow(
      versions: set<CustomerVersion>, view: map<Key, SalesRow>, fact: map<Key, FactRow>, incremental: bool, k: Key)
    requires UniqueKeys(versions) && Disjoint(versions)
    ensures var fact' := FactRun(versions, view, fact, incremental);
      var delta := Delta(view, Sales(fact), incremental);
      if k in delta then
        && k in fact' && fact'[k].sale == delta[k]
        && fact'[k].previousDate == PreviousDate(fact, k, delta[k].orderDate, incremental)
      else Lookup(fact', k) == Lookup(fact, k)
  {
    hide Delta, Resolve;
  }

  lemma {:induction false} FactRunMerges(
      versions: set<CustomerVersion>, view: map<Key, SalesRow>, fact: map<Key, FactRow>, incremental: bool)
    requires UniqueKeys(versions) && Disjoint(versions)
    ensures Sales(FactRun(versions, view, fact, incremental)) == Sales(fact) + Delta(view, Sales(fact), incremental)
  {
    hide Delta, Resolve;
  }

  /** A run over a relation the table follows leaves the table equal to the whole relation. */
  lemma {:induction false} FactEqualsView(
      versions: set<CustomerVersion>, view: map<Key, SalesRow>, fact: map<Key, FactRow>, incremental: bool)
    requires UniqueKeys(versions) && Disjoint(versions)
    requires Follows(Sales(fact), view) && fact.Keys <= view.Keys
    ensures Sales(FactRun(versions, view, fact, incremental)) == view
  {
    hide Delta, Resolve, Follows, FactRun;
    FactRunMerges(versions, view, fact, incremental);
    DeltaCompletes(Sales(fact), view, incremental);
  }
}
