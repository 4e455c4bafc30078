/**
 * The concrete failure of the daily mart, as a history from the empty warehouse: an order
 * moves to another day, its item is merged, and it is merged again for a payment before the
 * daily model runs. The second merge overwrites the remembered day.
 */
module ForgottenDay {
  import opened Aggregates
  import opened Prelude
  import opened SalesView
  import opened TemporalJoin
  import opened FactSales
  import opened DailySales
  import opened IcebergSales
  import opened MartRuns

  const MONDAY := 0
  const TUESDAY := MICROSECONDS_PER_DAY

  // ----- What is loaded -----

  const ORDERS := map["o1" := Order("c", MONDAY, None, 1), "o2" := Order("c", MONDAY, None, 1)]
  const ITEMS := map["stays" := Item("o1", "x", 1, 100, 2), "moves" := Item("o2", "x", 1, 100, 2)]
  const MOVED_ORDER := map["o2" := Order("c", TUESDAY, None, 3)]
  const PAYMENT := map["p" := Payment("o2", Some("completed"), 4)]

  const BOUGHT := Staging(ORDERS, ITEMS, map[])
  const MOVED := Staging(ORDERS + MOVED_ORDER, ITEMS, map[])
  const PAID := Staging(ORDERS + MOVED_ORDER, ITEMS, PAYMENT)

  /** Both orders on Monday and a full build; then the move, a fact run, the payment, a fact run, two daily runs. */
  const STEPS := [
    LoadStep(OrderBatch(ORDERS), 1), LoadStep(ItemBatch(ITEMS), 2), FactStep({}, false), DailyStep(false),
    LoadStep(OrderBatch(MOVED_ORDER), 3), FactStep({}, true),
    LoadStep(PaymentBatch(PAYMENT), 4), FactStep({}, true),
    DailyStep(true), DailyStep(true)]

  const NOTHING := Marts(Staging(map[], map[], map[]), EPOCH, map[], map[], [], map[], map[], map[])

  ghost function Loaded(s: Marts, b: Batch, now: int): Marts {
    s.(staging := Load(s.staging, b), clock := now)
  }

  ghost function Merged(s: Marts, incremental: bool): Marts {
    s.(fact := FactRun({}, View(Dbt, s.staging), s.fact, incremental))
  }

  ghost function Recomputed(s: Marts, incremental: bool): Marts {
    s.(daily := DailyRun(s.fact, s.daily, incremental),
       synced := Sales(s.fact), basis := BasisRun(s.fact, s.basis, incremental))
  }

  // ----- The states -----

  ghost function Bought(): Marts { Loaded(Loaded(NOTHING, OrderBatch(ORDERS), 1), ItemBatch(ITEMS), 2) }

  ghost function Built(): Marts { Recomputed(Merged(Bought(), false), false) }

  ghost function Moved(): Marts { Loaded(Built(), OrderBatch(MOVED_ORDER), 3) }

  ghost function MoveMerged(): Marts { Merged(Moved(), true) }

  ghost function Paid(): Marts { Loaded(MoveMerged(), PaymentBatch(PAYMENT), 4) }

  ghost function PaymentMerged(): Marts { Merged(Paid(), true) }

  ghost function DailyOnce(): Marts { Recomputed(PaymentMerged(), true) }

  ghost function DailyTwice(): Marts { Recomputed(DailyOnce(), true) }

  ghost function States(): seq<Marts> {
    [NOTHING, Loaded(NOTHING, OrderBatch(ORDERS), 1), Bought(), Merged(Bought(), false), Built(),
     Moved(), MoveMerged(), Paid(), PaymentMerged(), DailyOnce(), DailyTwice()]
  }

  lemma {:induction false} Stagings()
    ensures Bought().staging == BOUGHT && Built().staging == BOUGHT
    ensures Moved().staging == MOVED && MoveMerged().staging == MOVED
    ensures Paid().staging == PAID && PaymentMerged().staging == PAID
    ensures Bought().clock == Built().clock == 2 && Moved().clock == MoveMerged().clock == 3
  {
    hide View, FactRun, DailyRun, BasisRun;
    assert map[] + ORDERS == ORDERS && map[] + ITEMS == ITEMS;
    var none: map<Key, Payment> := map[];
    assert none + PAYMENT == PAYMENT;
  }

  lemma {:induction false} AllRelated()
    ensures Related(BOUGHT) && Related(MOVED) && Related(PAID)
  {
  }

  lemma {:induction false} LoadIsStep(s: Marts, b: Batch, now: int)
    requires s.clock < now && LoadedAt(b, now) && PaymentsStay(s.staging, b)
    ensures Next(s, Loaded(s, b, now), LoadStep(b, now))
  {
    hide Load, LoadedAt, PaymentsStay;
  }

  lemma {:induction false} BatchesAreTimed()
    ensures LoadedAt(OrderBatch(ORDERS), 1) && LoadedAt(ItemBatch(ITEMS), 2)
    ensures LoadedAt(OrderBatch(MOVED_ORDER), 3) && LoadedAt(PaymentBatch(PAYMENT), 4)
    ensures PaymentsStay(MOVED, PaymentBatch(PAYMENT))
  {
  }

  lemma {:induction false} LoadsAreSteps()
    ensures Next(NOTHING, Loaded(NOTHING, OrderBatch(ORDERS), 1), LoadStep(OrderBatch(ORDERS), 1))
    ensures Next(Loaded(NOTHING, OrderBatch(ORDERS), 1), Bought(), LoadStep(ItemBatch(ITEMS), 2))
    ensures Next(Built(), Moved(), LoadStep(OrderBatch(MOVED_ORDER), 3))
    ensures Next(MoveMerged(), Paid(), LoadStep(PaymentBatch(PAYMENT), 4))
  {
    hide Built, MoveMerged, LoadedAt, Next, Load;
    Stagings();
    BatchesAreTimed();
    LoadIsStep(NOTHING, OrderBatch(ORDERS), 1);
    LoadIsStep(Loaded(NOTHING, OrderBatch(ORDERS), 1), ItemBatch(ITEMS), 2);
    LoadIsStep(Built(), OrderBatch(MOVED_ORDER), 3);
    LoadIsStep(MoveMerged(), PaymentBatch(PAYMENT), 4);
  }

  lemma {:induction false} RunsAreSteps()
    ensures Next(Bought(), Merged(Bought(), false), FactStep({}, false))
    ensures Next(Merged(Bought(), false), Built(), DailyStep(false))
    ensures Next(Moved(), MoveMerged(), FactStep({}, true))
    ensures Next(Paid(), PaymentMerged(), FactStep({}, true))
    ensures Next(PaymentMerged(), DailyOnce(), DailyStep(true))
    ensures Next(DailyOnce(), DailyTwice(), DailyStep(true))
  {
    hide View, FactRun, DailyRun, BasisRun, Related, Moved, Paid;
    Stagings();
    AllRelated();
  }

  /** The history the code can run through. */
  lemma {:induction false} IsHistory()
    ensures History(States(), STEPS) && ItemsKeepOrders(States(), STEPS)
  {
    hide Next, Bought, Built, Moved, MoveMerged, Paid, PaymentMerged, DailyOnce, DailyTwice, Merged;
    LoadsAreSteps();
    RunsAreSteps();
    assert ItemsStay(Loaded(NOTHING, OrderBatch(ORDERS), 1).staging, ItemBatch(ITEMS));
  }

  // ----- The facts along the way -----

  /** The columns of an item's row that come from its order and its payments. */
  lemma {:induction false} RowColumns(s: Staging, k: Key)
    requires Joins(s, k)
    ensures k in View(Dbt, s)
    ensures View(Dbt, s)[k].orderDate == s.orders[s.items[k].orderId].orderDate
    ensures View(Dbt, s)[k].paymentAttempts == |PaymentsOf(s, s.items[k].orderId)|
  {
    hide DbtStatus, LastLoad, PaymentsOf;
  }

  lemma {:induction false} PaymentsAlongTheWay()
    ensures PaymentsOf(BOUGHT, "o1") == PaymentsOf(MOVED, "o1") == PaymentsOf(PAID, "o1") == map[]
    ensures PaymentsOf(MOVED, "o2") == map[] && |PaymentsOf(PAID, "o2")| == 1
  {
    assert PaymentsOf(PAID, "o2") == PAYMENT;
  }

  lemma {:induction false} ItemsInView()
    ensures View(Dbt, BOUGHT).Keys == View(Dbt, MOVED).Keys == View(Dbt, PAID).Keys == {"stays", "moves"}
  {
    hide View;
    AllRelated();
    ViewCoversItems(Dbt, BOUGHT);
    ViewCoversItems(Dbt, MOVED);
    ViewCoversItems(Dbt, PAID);
  }

  lemma {:induction false} StayingRow()
    ensures "stays" in View(Dbt, BOUGHT) && "stays" in View(Dbt, MOVED) && "stays" in View(Dbt, PAID)
    ensures View(Dbt, BOUGHT)["stays"] == View(Dbt, MOVED)["stays"] == View(Dbt, PAID)["stays"]
    ensures View(Dbt, BOUGHT)["stays"].orderDate == MONDAY
  {
    hide RowOf, PaymentsOf;
    PaymentsAlongTheWay();
    RowColumns(BOUGHT, "stays");
  }

  lemma {:induction false} MovingRow()
    ensures "moves" in View(Dbt, BOUGHT) && "moves" in View(Dbt, MOVED) && "moves" in View(Dbt, PAID)
    ensures View(Dbt, BOUGHT)["moves"].orderDate == MONDAY
    ensures View(Dbt, MOVED)["moves"].orderDate == TUESDAY == View(Dbt, PAID)["moves"].orderDate
    ensures View(Dbt, MOVED)["moves"].paymentAttempts == 0 && View(Dbt, PAID)["moves"].paymentAttempts == 1
  {
    hide View, PaymentsOf;
    PaymentsAlongTheWay();
    RowColumns(BOUGHT, "moves");
    RowColumns(MOVED, "moves");
    RowColumns(PAID, "moves");
  }

  /** The staying item's row never changes; the moving one changes with the order and with the payment. */
  lemma {:induction false} RowsAlongTheWay()
    ensures View(Dbt, BOUGHT).Keys == View(Dbt, MOVED).Keys == View(Dbt, PAID).Keys == {"stays", "moves"}
    ensures View(Dbt, BOUGHT)["stays"] == View(Dbt, MOVED)["stays"] == View(Dbt, PAID)["stays"]
    ensures View(Dbt, BOUGHT)["stays"].orderDate == MONDAY == View(Dbt, BOUGHT)["moves"].orderDate
    ensures View(Dbt, MOVED)["moves"].orderDate == TUESDAY == View(Dbt, PAID)["moves"].orderDate
    ensures View(Dbt, MOVED)["moves"] != View(Dbt, PAID)["moves"]
  {
    hide View;
    ItemsInView();
    StayingRow();
    MovingRow();
  }

  /** What a fact run from a reachable state leaves. */
  lemma {:induction false} MergedIsView(i: nat, incremental: bool)
    requires History(States(), STEPS) && i < |States()|
    requires Related(States()[i].staging)
    ensures Sales(Merged(States()[i], incremental).fact) == View(Dbt, States()[i].staging)
  {
    hide View, FactRun, History, MartsInv, States, Related;
    HistoryInv(States(), STEPS, i);
    FactBecomesView(States()[i], {}, incremental);
  }

  lemma {:induction false} FactsAlongTheWay()
    ensures Sales(Built().fact) == View(Dbt, BOUGHT) && Built().synced == View(Dbt, BOUGHT)
    ensures Sales(MoveMerged().fact) == View(Dbt, MOVED)
    ensures Sales(PaymentMerged().fact) == View(Dbt, PAID)
  {
    hide View, FactRun, DailyRun, BasisRun, History, Related, Sales;
    IsHistory();
    Stagings();
    AllRelated();
    MergedIsView(2, false);
    MergedIsView(5, true);
    MergedIsView(7, true);
  }

  /** A fact run merges every row that differs from its fact. */
  lemma {:induction false} ChangedIsMerged(s: Marts, k: Key)
    requires MartsInv(s) && k in View(Dbt, s.staging) && k in s.fact && s.fact[k].sale != View(Dbt, s.staging)[k]
    ensures var row, merged := View(Dbt, s.staging)[k], Merged(s, true).fact;
      k in merged && merged[k].previousDate == PreviousDate(s.fact, k, row.orderDate, true)
  {
    hide View, FactRun, RowsHighWater, BasisInv, DailyOf, Represents, Since, StagingPast, Priced, AllPriced, Past;
    assert Sales(s.fact)[k] == s.fact[k].sale;
    FactRunRow({}, View(Dbt, s.staging), s.fact, true, k);
  }

  /** The first merge remembers the day that the item left, the second one forgets it. */
  lemma {:induction false} SecondMergeForgets()
    ensures History(States(), STEPS)
    ensures "moves" in MoveMerged().fact && MoveMerged().fact["moves"].previousDate == Some(MONDAY)
    ensures "moves" in PaymentMerged().fact && PaymentMerged().fact["moves"].previousDate == None
  {
    hide View, FactRun, DailyRun, BasisRun, History, MartsInv;
    IsHistory();
    Stagings();
    RowsAlongTheWay();
    FactsAlongTheWay();
    HistoryInv(States(), STEPS, 5);
    HistoryInv(States(), STEPS, 7);
    assert States()[5] == Moved() && States()[7] == Paid();
    assert "moves" in Sales(Moved().fact) && "moves" in Sales(Paid().fact);
    ChangedIsMerged(Moved(), "moves");
    ChangedIsMerged(Paid(), "moves");
  }

  // ----- The daily table -----

  lemma {:induction false} FactRows(fact: map<Key, FactRow>, view: map<Key, SalesRow>)
    requires Sales(fact) == view
    ensures fact.Keys == view.Keys && forall k :: k in fact ==> fact[k].sale == view[k]
  {
    forall k | k in fact ensures k in view && fact[k].sale == view[k] {
      assert k in Sales(fact);
    }
    forall k | k in view ensures k in fact {
      assert k in Sales(fact);
    }
  }

  /** Monday is not above a high water that the staying item does not exceed, if the moved one remembers nothing. */
  lemma {:induction false} MondayIsBelow(fact: map<Key, FactRow>, h: int)
    requires fact.Keys == {"stays", "moves"}
    requires fact["stays"].sale.loadedAt <= h
    requires fact["moves"].sale.orderDate == TUESDAY && fact["moves"].previousDate == None
    ensures Day(MONDAY) !in DaysAbove(fact, h)
  {
  }

  /** The first daily run after the merges does not see Monday. */
  lemma {:induction false} MondayIsNotAffected()
    ensures Day(MONDAY) !in DaysAbove(PaymentMerged().fact, RowsHighWater(View(Dbt, BOUGHT)))
  {
    hide View, PaymentMerged, MoveMerged, RowsHighWater, DaysAbove, Day, History, Sales, States;
    RowsAlongTheWay();
    FactsAlongTheWay();
    FactRows(PaymentMerged().fact, View(Dbt, PAID));
    SecondMergeForgets();
    LoadBound(View(Dbt, BOUGHT), "stays");
    MondayIsBelow(PaymentMerged().fact, RowsHighWater(View(Dbt, BOUGHT)));
  }

  lemma {:induction false} MondayIsLeft(rows: map<Key, SalesRow>, fact: map<Key, FactRow>)
    requires "moves" in rows && rows["moves"].orderDate == MONDAY
    requires "moves" in fact && fact["moves"].sale.orderDate == TUESDAY
    requires "stays" in fact && fact["stays"].sale.orderDate == MONDAY
    ensures Left(rows, fact, Day(MONDAY)) && Day(MONDAY) in Days(Sales(fact))
  {
    assert LeftDay(rows, fact, "moves", Day(MONDAY));
    assert "stays" in Sales(fact) && Day(Sales(fact)["stays"].orderDate) == Day(MONDAY);
  }

  /** A daily run on the facts of the last one affects nothing. */
  lemma {:induction false} NothingAbove(fact: map<Key, FactRow>, d: Date)
    ensures d !in DaysAbove(fact, RowsHighWater(Sales(fact)))
  {
    hide Day, RowsHighWater;
    forall k | k in fact ensures fact[k].sale.loadedAt <= RowsHighWater(Sales(fact)) {
      LoadBound(Sales(fact), k);
    }
  }

  lemma {:induction false} MondayIsStale()
    ensures Day(MONDAY) in Stale(DailyOnce().basis, DailyOnce().synced)
    ensures Day(MONDAY) in Stale(DailyTwice().basis, DailyTwice().synced)
  {
    hide View, FactRun, DailyRun, BasisRun, History, Stale, DaysAbove, RowsHighWater, Days, Left;
    IsHistory();
    FactsAlongTheWay();
    RowsAlongTheWay();
    FactRows(PaymentMerged().fact, View(Dbt, PAID));
    MondayIsNotAffected();
    MondayIsLeft(View(Dbt, BOUGHT), PaymentMerged().fact);
    assert States()[8] == PaymentMerged() && States()[9] == DailyOnce() && States()[10] == DailyTwice();
    assert PaymentMerged().synced == View(Dbt, BOUGHT);
    StaleDaysEvolve(States(), STEPS, 8, Day(MONDAY));
    NothingAbove(DailyOnce().fact, Day(MONDAY));
    StaleDaysEvolve(States(), STEPS, 9, Day(MONDAY));
  }

  /** The daily run of this history leaves Monday with an item it no longer has, and the project's check fails. */
  lemma {:induction false} DailyKeepsMonday()
    ensures History(States(), STEPS) && States()[9] == DailyOnce()
    ensures DailyOnce().daily != FullDaily(Sales(DailyOnce().fact))
    ensures !PassesCheck(DailyOnce().daily, Sales(DailyOnce().fact))
  {
    hide View, FactRun, DailyRun, BasisRun, History, Stale, ItemsKeepOrders, FullDaily, PassesCheck;
    IsHistory();
    MondayIsStale();
    assert States()[9] == DailyOnce() && DailyOnce().synced == Sales(DailyOnce().fact);
    ExactIffNoDayIsStale(States(), STEPS, 8);
  }

  /** Running the daily model again on the same facts does not repair it, though no item has left a day since. */
  lemma {:induction false} SecondRunDoesNotRepair()
    ensures History(States(), STEPS) && States()[10] == DailyTwice()
    ensures NoDayForgotten(DailyOnce().synced, DailyOnce().fact)
    ensures DailyTwice().daily != FullDaily(Sales(DailyTwice().fact))
    ensures !PassesCheck(DailyTwice().daily, Sales(DailyTwice().fact))
  {
    hide View, FactRun, DailyRun, BasisRun, History, Stale, ItemsKeepOrders, FullDaily, PassesCheck, NoDayForgotten;
    IsHistory();
    MondayIsStale();
    NothingHasLeft(DailyOnce().fact);
    assert States()[10] == DailyTwice() && DailyTwice().synced == Sales(DailyTwice().fact);
    ExactIffNoDayIsStale(States(), STEPS, 9);
  }
}
