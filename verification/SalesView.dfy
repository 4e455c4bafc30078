/**
 * The order-item sales relation that dbt (int_payments_by_order.sql and
 * int_sales_order_items.sql) and Spark (sales_batch.py) each compute from staging, and the
 * high-water delta through which both marts follow it. Money is in cents.
 */
module SalesView {
  import opened Aggregates
  import opened Prelude

  datatype Order = Order(customerId: Key, orderDate: int, status: Option<string>, loadedAt: int)

  datatype Item = Item(orderId: Key, productId: Key, quantity: int, unitPrice: int, loadedAt: int)

  datatype Payment = Payment(orderId: Key, status: Option<string>, loadedAt: int)

  datatype Staging = Staging(orders: map<Key, Order>, items: map<Key, Item>, payments: map<Key, Payment>)

  datatype SalesRow = SalesRow(
    orderId: Key, customerId: Key, productId: Key, orderDate: int, orderStatus: Option<string>,
    quantity: int, unitPrice: int, salesAmount: int,
    paymentStatus: string, paymentAttempts: nat, loadedAt: int)

  // ----- Payments per order -----

  function PaymentsOf(s: Staging, o: Key): map<Key, Payment> {
    map p | p in s.payments && s.payments[p].orderId == o :: s.payments[p]
  }

  predicate IsCompleted(p: Payment) { p.status == Some("completed") }

  /** dbt: bool_and and bool_or skip NULLs and are NULL when nothing is left. */
  function DbtStatus(payments: map<Key, Payment>): string {
    var known := set p | p in payments && payments[p].status.Some?;
    if known != {} && forall p :: p in known ==> IsCompleted(payments[p]) then "paid"
    else if exists p :: p in known && IsCompleted(payments[p]) then "partially_paid"
    else "unpaid"
  }

  /** Spark: completed payments counted against all attempts; an order without payments is unpaid. */
  function SparkStatus(payments: map<Key, Payment>): string {
    var completed := |set p | p in payments && IsCompleted(payments[p])|;
    if payments == map[] then "unpaid"
    else if completed == |payments| then "paid"
    else if completed > 0 then "partially_paid"
    else "unpaid"
  }

  /** A completed payment, a payment without a status, and no payment with any other status. */
  ghost predicate PaidButUnknown(payments: map<Key, Payment>) {
    && (exists p :: p in payments && payments[p].status == Some("completed"))
    && (exists p :: p in payments && payments[p].status.None?)
    && (forall p :: p in payments && payments[p].status.Some? ==> payments[p].status.value == "completed")
  }

  lemma {:induction false} SubsetSize<T>(a: set<T>, b: set<T>)
    requires a <= b
    ensures |a| == |b| <==> a == b
  {
    if a != b {
      assert b == a + (b - a);
      var x :| x in b - a;
      assert |b - a| > 0;
    }
  }

  lemma {:induction false} CompletedCount(payments: map<Key, Payment>)
    ensures var completed := set p | p in payments && IsCompleted(payments[p]);
      && (|completed| == |payments| <==> forall p :: p in payments ==> IsCompleted(payments[p]))
      && (|completed| > 0 <==> exists p :: p in payments && IsCompleted(payments[p]))
  {
    var completed := set p | p in payments && IsCompleted(payments[p]);
    assert |payments.Keys| == |payments|;
    SubsetSize(completed, payments.Keys);
    assert |completed| > 0 <==> completed != {};
    if p :| p in payments && IsCompleted(payments[p]) {
      assert p in completed;
    }
    if completed != {} {
      var p :| p in completed;
    }
  }

  /** The two engines classify an order's payments alike, except exactly for a paid order with an unknown attempt. */
  lemma {:induction false} StatusesAgree(payments: map<Key, Payment>)
    ensures DbtStatus(payments) == SparkStatus(payments) <==> !PaidButUnknown(payments)
  {
    CompletedCount(payments);
    var known := set p | p in payments && payments[p].status.Some?;
    if p :| p in payments && IsCompleted(payments[p]) {
      assert p in known;
    }
    if known == {} {
      assert forall p :: p in payments ==> p !in known;
    }
  }

  // ----- One row of the relation, as each engine selects it -----

  /** A row of int_payments_by_order: the payments of one order. */
  datatype DbtPayments = DbtPayments(orderId: Key, attempts: nat, loadedAt: int, status: string)

  /** A row of payment_metrics before its status column. */
  datatype SparkPayments = SparkPayments(orderId: Key, attempts: nat, completed: int, loadedAt: int)

  ghost function LastLoad(payments: map<Key, Payment>): int {
    HighWater(map p | p in payments :: payments[p].loadedAt)
  }

  function Completed(payments: map<Key, Payment>): map<Key, int> {
    map p | p in payments :: if IsCompleted(payments[p]) then 1 else 0
  }

  /** The aggregates of one dbt group: count(*), max, bool_and, bool_or. */
  ghost function DbtGroup(o: Key, payments: map<Key, Payment>): DbtPayments {
    DbtPayments(o, |payments|, LastLoad(payments), DbtStatus(payments))
  }

  /** The aggregates of one Spark group: count(payment_id), sum(when completed), max. */
  ghost function SparkGroup(o: Key, payments: map<Key, Payment>): SparkPayments {
    SparkPayments(o, |payments|, Total(Completed(payments)), LastLoad(payments))
  }

  /** int_sales_order_items.sql, given the payment row the left join found. */
  function DbtRow(item: Item, order: Order, found: Option<DbtPayments>): SalesRow {
    SalesRow(
      item.orderId, order.customerId, item.productId, order.orderDate, order.status,
      item.quantity, item.unitPrice, item.quantity * item.unitPrice,
      if found.Some? then found.value.status else "unpaid",
      if found.Some? then found.value.attempts else 0,
      Max(order.loadedAt, Max(item.loadedAt, if found.Some? then found.value.loadedAt else EPOCH)))
  }

  /** The select of transform_sales, given the payment row the left join found. */
  function SparkRow(item: Item, order: Order, found: Option<SparkPayments>): SalesRow {
    var status :=
      if found.None? then "unpaid"
      else if found.value.completed == found.value.attempts then "paid"
      else if found.value.completed > 0 then "partially_paid"
      else "unpaid";
    var attempts := if found.None? then 0 else found.value.attempts;
    var paymentLoaded := if found.None? then EPOCH else found.value.loadedAt;
    SalesRow(
      item.orderId, order.customerId, item.productId, order.orderDate, order.status,
      item.quantity, item.unitPrice, item.quantity * item.unitPrice,
      status, attempts, Max(Max(order.loadedAt, item.loadedAt), paymentLoaded))
  }

  // ----- The two queries -----

  datatype Engine = Dbt | Spark

  /** One row of the three-way join: an item, an order, and what the left join found. */
  datatype Joined<G> = Joined(itemId: Key, orderId: Key, found: Option<G>)

  predicate Joins(s: Staging, k: Key) { k in s.items && s.items[k].orderId in s.orders }

  /** orders INNER JOIN order_items ON order_id. */
  ghost function InnerJoin(s: Staging): set<(Key, Key)> {
    set k, o | k in s.items && o in s.orders && s.items[k].orderId == o :: (k, o)
  }

  /** ... LEFT JOIN `right` ON its order id. */
  ghost function LeftJoin<G(!new)>(s: Staging, right: set<G>, orderOf: G -> Key): set<Joined<G>> {
    (set j, g | j in InnerJoin(s) && g in right && orderOf(g) == j.1 :: Joined(j.0, j.1, Some(g))) +
    (set j | j in InnerJoin(s) && forall g :: g in right ==> orderOf(g) != j.1 :: Joined(j.0, j.1, None))
  }

  ghost function PaidOrders(s: Staging): set<Key> {
    set p | p in s.payments :: s.payments[p].orderId
  }

  /** GROUP BY order_id, per engine. */
  ghost function DbtGroups(s: Staging): set<DbtPayments> {
    set o | o in PaidOrders(s) :: DbtGroup(o, PaymentsOf(s, o))
  }

  ghost function SparkGroups(s: Staging): set<SparkPayments> {
    set o | o in PaidOrders(s) :: SparkGroup(o, PaymentsOf(s, o))
  }

  ghost function DbtJoin(s: Staging): set<Joined<DbtPayments>> {
    LeftJoin(s, DbtGroups(s), (g: DbtPayments) => g.orderId)
  }

  ghost function SparkJoin(s: Staging): set<Joined<SparkPayments>> {
    LeftJoin(s, SparkGroups(s), (g: SparkPayments) => g.orderId)
  }

  /** An output row. */
  datatype Line = Line(itemId: Key, sale: SalesRow)

  ghost function DbtSales(s: Staging): set<Line> {
    set j | j in DbtJoin(s) && j.itemId in s.items && j.orderId in s.orders ::
      Line(j.itemId, DbtRow(s.items[j.itemId], s.orders[j.orderId], j.found))
  }

  ghost function SparkSales(s: Staging): set<Line> {
    set j | j in SparkJoin(s) && j.itemId in s.items && j.orderId in s.orders ::
      Line(j.itemId, SparkRow(s.items[j.itemId], s.orders[j.orderId], j.found))
  }

  // ----- Grain -----

  ghost predicate Grouped<G(!new)>(right: set<G>, orderOf: G -> Key, sold: set<Key>) {
    forall g, g' :: g in right && g' in right && orderOf(g) == orderOf(g') && orderOf(g) in sold ==> g == g'
  }

  ghost function SoldOrders(s: Staging): set<Key> {
    set j | j in InnerJoin(s) :: j.1
  }

  ghost predicate OneRowPerItem<G(!new)>(rows: set<Joined<G>>) {
    forall j, j' :: j in rows && j' in rows && j.itemId == j'.itemId ==> j == j'
  }

  /** The left join keeps one row per item exactly when it finds at most one row per sold order. */
  lemma {:induction false} JoinKeepsGrain<G(!new)>(s: Staging, right: set<G>, orderOf: G -> Key)
    ensures OneRowPerItem(LeftJoin(s, right, orderOf)) <==> Grouped(right, orderOf, SoldOrders(s))
  {
    var rows := LeftJoin(s, right, orderOf);
    if OneRowPerItem(rows) {
      forall g, g' | g in right && g' in right && orderOf(g) == orderOf(g') && orderOf(g) in SoldOrders(s)
        ensures g == g'
      {
        var j :| j in InnerJoin(s) && j.1 == orderOf(g);
        assert Joined(j.0, j.1, Some(g)) in rows && Joined(j.0, j.1, Some(g')) in rows;
      }
    }
    if Grouped(right, orderOf, SoldOrders(s)) {
      forall j, j' | j in rows && j' in rows && j.itemId == j'.itemId ensures j == j' {
        assert (j.itemId, j.orderId) in InnerJoin(s) && (j'.itemId, j'.orderId) in InnerJoin(s);
        assert j.orderId in SoldOrders(s);
      }
    }
  }

  /** So aggregating first keeps one row per item, in both engines. */
  lemma {:induction false} GroupingKeepsGrain(s: Staging)
    ensures OneRowPerItem(DbtJoin(s)) && OneRowPerItem(SparkJoin(s))
  {
    hide LeftJoin, OneRowPerItem, PaymentsOf, DbtStatus;
    JoinKeepsGrain(s, DbtGroups(s), (g: DbtPayments) => g.orderId);
    JoinKeepsGrain(s, SparkGroups(s), (g: SparkPayments) => g.orderId);
  }

  /** Joining raw attempts instead would give an item one row per payment attempt of its order. */
  lemma {:induction false} RawAttemptsMultiply(s: Staging, k: Key)
    requires Joins(s, k) && PaymentsOf(s, s.items[k].orderId) != map[]
    ensures
      var rows := LeftJoin(s, s.payments.Keys, p => if p in s.payments then s.payments[p].orderId else "");
      |set j | j in rows && j.itemId == k| == |PaymentsOf(s, s.items[k].orderId)|
  {
    var o, attempts := s.items[k].orderId, PaymentsOf(s, s.items[k].orderId);
    var orderOf := p => if p in s.payments then s.payments[p].orderId else "";
    var rows := LeftJoin(s, s.payments.Keys, orderOf);
    assert (k, o) in InnerJoin(s);
    var p0 :| p0 in attempts;
    assert p0 in s.payments.Keys && orderOf(p0) == o;
    var mine := set j | j in rows && j.itemId == k;
    forall j ensures j in mine <==> exists p :: p in attempts && j == Joined(k, o, Some(p)) {
      if p :| p in attempts && j == Joined(k, o, Some(p)) {
        assert p in s.payments.Keys && orderOf(p) == o;
      }
      if j in mine {
        assert (j.itemId, j.orderId) in InnerJoin(s);
      }
    }
    assert mine == set p | p in attempts :: Joined(k, o, Some(p));
    TaggedCount(attempts.Keys, k, o, mine);
    assert |attempts.Keys| == |attempts|;
  }

  lemma {:induction false} TaggedCount(ps: set<Key>, k: Key, o: Key, rows: set<Joined<Key>>)
    requires rows == set p | p in ps :: Joined(k, o, Some(p))
    ensures |rows| == |ps|
  {
    if ps == {} {
      assert rows == {};
    } else {
      var p :| p in ps;
      var row := Joined(k, o, Some(p));
      assert rows - {row} == set q | q in ps - {p} :: Joined(k, o, Some(q));
      TaggedCount(ps - {p}, k, o, rows - {row});
    }
  }

  // ----- The relation by item -----

  ghost function RowOf(e: Engine, item: Item, order: Order, payments: map<Key, Payment>): SalesRow {
    match e
    case Dbt => DbtRow(item, order, if payments == map[] then None else Some(DbtGroup(item.orderId, payments)))
    case Spark => SparkRow(item, order, if payments == map[] then None else Some(SparkGroup(item.orderId, payments)))
  }

  ghost function View(e: Engine, s: Staging): map<Key, SalesRow> {
    map k | k in s.items && Joins(s, k) ::
      RowOf(e, s.items[k], s.orders[s.items[k].orderId], PaymentsOf(s, s.items[k].orderId))
  }

  ghost function Lines(view: map<Key, SalesRow>): set<Line> {
    set k | k in view :: Line(k, view[k])
  }

  /** What the left join of the dbt query finds for an item. */
  lemma {:induction false} DbtFinds(s: Staging, k: Key, j: Joined<DbtPayments>)
    ensures j in DbtJoin(s) && j.itemId == k <==>
      && Joins(s, k)
      && j == Joined(k, s.items[k].orderId,
           var payments := PaymentsOf(s, s.items[k].orderId);
           if payments == map[] then None else Some(DbtGroup(s.items[k].orderId, payments)))
  {
    hide DbtStatus, LastLoad;
    if Joins(s, k) {
      var o := s.items[k].orderId;
      assert (k, o) in InnerJoin(s);
      PaidHasPayments(s, o);
      if o in PaidOrders(s) {
        assert DbtGroup(o, PaymentsOf(s, o)) in DbtGroups(s);
      }
    }
    if j in DbtJoin(s) {
      assert (j.itemId, j.orderId) in InnerJoin(s);
    }
  }

  lemma {:induction false} SparkFinds(s: Staging, k: Key, j: Joined<SparkPayments>)
    ensures j in SparkJoin(s) && j.itemId == k <==>
      && Joins(s, k)
      && j == Joined(k, s.items[k].orderId,
           var payments := PaymentsOf(s, s.items[k].orderId);
           if payments == map[] then None else Some(SparkGroup(s.items[k].orderId, payments)))
  {
    hide Total, Completed, LastLoad;
    if Joins(s, k) {
      var o := s.items[k].orderId;
      assert (k, o) in InnerJoin(s);
      PaidHasPayments(s, o);
      if o in PaidOrders(s) {
        assert SparkGroup(o, PaymentsOf(s, o)) in SparkGroups(s);
      }
    }
    if j in SparkJoin(s) {
      assert (j.itemId, j.orderId) in InnerJoin(s);
    }
  }

  lemma {:induction false} PaidHasPayments(s: Staging, o: Key)
    ensures o in PaidOrders(s) <==> PaymentsOf(s, o) != map[]
  {
    if o in PaidOrders(s) {
      var p :| p in s.payments && s.payments[p].orderId == o;
      assert p in PaymentsOf(s, o);
    }
    if PaymentsOf(s, o) != map[] {
      var p :| p in PaymentsOf(s, o);
    }
  }

  /** Each query returns exactly the rows of its relation by item. */
  lemma {:induction false} QueryIsView(e: Engine, s: Staging)
    ensures Lines(View(e, s)) == match e case Dbt => DbtSales(s) case Spark => SparkSales(s)
  {
    hide DbtJoin, SparkJoin, DbtGroup, SparkGroup, DbtRow, SparkRow, PaymentsOf;
    forall line ensures line in Lines(View(Dbt, s)) <==> line in DbtSales(s) {
      DbtLine(s, line);
    }
    forall line ensures line in Lines(View(Spark, s)) <==> line in SparkSales(s) {
      SparkLine(s, line);
    }
  }

  lemma {:induction false} DbtLine(s: Staging, line: Line)
    ensures line in Lines(View(Dbt, s)) <==> line in DbtSales(s)
  {
    hide DbtJoin, DbtGroup, DbtRow, PaymentsOf;
    var k := line.itemId;
    if k in View(Dbt, s) {
      var payments := PaymentsOf(s, s.items[k].orderId);
      var j := Joined(k, s.items[k].orderId,
                      if payments == map[] then None else Some(DbtGroup(s.items[k].orderId, payments)));
      DbtFinds(s, k, j);
      assert j in DbtJoin(s);
    }
    forall j | j in DbtJoin(s) && j.itemId == k
      ensures Joins(s, k) && j.orderId == s.items[k].orderId
      ensures DbtRow(s.items[k], s.orders[j.orderId], j.found) == View(Dbt, s)[k]
    {
      DbtFinds(s, k, j);
    }
  }

  lemma {:induction false} SparkLine(s: Staging, line: Line)
    ensures line in Lines(View(Spark, s)) <==> line in SparkSales(s)
  {
    hide SparkJoin, SparkGroup, SparkRow, PaymentsOf;
    var k := line.itemId;
    if k in View(Spark, s) {
      var payments := PaymentsOf(s, s.items[k].orderId);
      var j := Joined(k, s.items[k].orderId,
                      if payments == map[] then None else Some(SparkGroup(s.items[k].orderId, payments)));
      SparkFinds(s, k, j);
      assert j in SparkJoin(s);
    }
    forall j | j in SparkJoin(s) && j.itemId == k
      ensures Joins(s, k) && j.orderId == s.items[k].orderId
      ensures SparkRow(s.items[k], s.orders[j.orderId], j.found) == View(Spark, s)[k]
    {
      SparkFinds(s, k, j);
    }
  }

  // ----- What the columns hold -----

  /** `p` is a payment attempt for order `o`. */
  predicate Pays(s: Staging, p: Key, o: Key) { p in s.payments && s.payments[p].orderId == o }

  /**
   * The payment status of a sale, read off the staged payments of its order. It is unpaid iff none
   * is completed. Paid means all are for Spark, and all with a status for dbt.
   */
  lemma {:induction false} PaymentStatusOfSale(e: Engine, s: Staging, k: Key)
    requires k in s.items && s.items[k].orderId in s.orders
    ensures k in View(e, s)
    ensures var status, o := View(e, s)[k].paymentStatus, s.items[k].orderId;
      && (status == "unpaid" <==> forall p :: Pays(s, p, o) ==> s.payments[p].status != Some("completed"))
      && (e == Spark ==>
            (status == "paid" <==>
              && (exists p :: Pays(s, p, o))
              && forall p :: Pays(s, p, o) ==> s.payments[p].status == Some("completed")))
      && (e == Dbt ==>
            (status == "paid" <==>
              && (exists p :: Pays(s, p, o) && s.payments[p].status == Some("completed"))
              && forall p :: Pays(s, p, o) && s.payments[p].status.Some? ==> s.payments[p].status.value == "completed"))
      && (status in {"unpaid", "paid", "partially_paid"})
  {
    hide RowOf, DbtStatus, SparkStatus, PaymentsOf;
    var o := s.items[k].orderId;
    var payments := PaymentsOf(s, o);
    PaymentsByKey(s, o);
    match e {
      case Dbt =>
        DbtStatusIsRow(s.items[k], s.orders[o], payments);
        DbtStatusMeans(payments);
      case Spark =>
        SparkStatusIsRow(s.items[k], s.orders[o], payments);
        SparkStatusMeans(payments);
    }
  }

  lemma {:induction false} DbtStatusIsRow(item: Item, order: Order, payments: map<Key, Payment>)
    ensures RowOf(Dbt, item, order, payments).paymentStatus == DbtStatus(payments)
  {
    hide DbtStatus, LastLoad;
    DbtStatusOfNone();
  }

  lemma {:induction false} DbtStatusMeans(payments: map<Key, Payment>)
    ensures var status := DbtStatus(payments);
      && (status == "unpaid" <==> forall p :: p in payments ==> payments[p].status != Some("completed"))
      && (status == "paid" <==>
            && (exists p :: p in payments && payments[p].status == Some("completed"))
            && forall p :: p in payments && payments[p].status.Some? ==> payments[p].status.value == "completed")
      && (status in {"unpaid", "paid", "partially_paid"})
  {
    var known := set p | p in payments && payments[p].status.Some?;
    if p :| p in payments && payments[p].status == Some("completed") {
      assert p in known;
    }
  }

  lemma {:induction false} SparkStatusMeans(payments: map<Key, Payment>)
    ensures var status := SparkStatus(payments);
      && (status == "unpaid" <==> forall p :: p in payments ==> payments[p].status != Some("completed"))
      && (status == "paid" <==>
            && payments != map[]
            && forall p :: p in payments ==> payments[p].status == Some("completed"))
      && (status in {"unpaid", "paid", "partially_paid"})
  {
    CompletedCount(payments);
  }

  /** The other columns of a sale. It is as new as the newest of its order, its item and its payments. */
  lemma {:induction false} ColumnsOfSale(e: Engine, s: Staging, k: Key)
    ensures k in View(e, s) <==> k in s.items && s.items[k].orderId in s.orders
    ensures k in View(e, s) ==>
      var row, item := View(e, s)[k], s.items[k];
      var o := item.orderId;
      && row.orderId == o && row.productId == item.productId
      && row.customerId == s.orders[o].customerId && row.orderDate == s.orders[o].orderDate
      && row.orderStatus == s.orders[o].status
      && row.quantity == item.quantity && row.unitPrice == item.unitPrice
      && row.salesAmount == item.quantity * item.unitPrice
      && row.paymentAttempts == |set p | p in s.payments && Pays(s, p, o)|
      && row.loadedAt >= item.loadedAt && row.loadedAt >= s.orders[o].loadedAt
      && (forall p :: Pays(s, p, o) ==> row.loadedAt >= s.payments[p].loadedAt)
      && (|| row.loadedAt == item.loadedAt || row.loadedAt == s.orders[o].loadedAt
          || (exists p :: Pays(s, p, o) && row.loadedAt == s.payments[p].loadedAt)
          || (row.loadedAt == EPOCH && forall p :: !Pays(s, p, o)))
  {
    hide RowOf, PaymentsOf;
    if k in View(e, s) {
      var item := s.items[k];
      var o, order, payments := item.orderId, s.orders[item.orderId], PaymentsOf(s, item.orderId);
      PaymentsByKey(s, o);
      CopiedColumns(e, item, order, payments);
      RowAttempts(e, item, order, payments);
      assert |payments| == |payments.Keys|;
      assert payments.Keys == set p | p in s.payments && Pays(s, p, o);
      RowLoadedAt(e, item, order, payments);
      LastLoadAttained(payments);
      RowIsAsNewAsItsInputs(e, item, order, payments);
      forall p | p in payments ensures payments[p].loadedAt <= RowOf(e, item, order, payments).loadedAt {
        RowIsAsNewAsItsPayments(e, item, order, payments, p);
      }
    }
  }

  lemma {:induction false} PaymentsByKey(s: Staging, o: Key)
    ensures forall p :: p in PaymentsOf(s, o) <==> Pays(s, p, o)
    ensures forall p :: p in PaymentsOf(s, o) ==> PaymentsOf(s, o)[p] == s.payments[p]
  {
  }

  lemma {:induction false} CopiedColumns(e: Engine, item: Item, order: Order, payments: map<Key, Payment>)
    ensures var row := RowOf(e, item, order, payments);
      && row.orderId == item.orderId && row.productId == item.productId
      && row.customerId == order.customerId && row.orderDate == order.orderDate && row.orderStatus == order.status
      && row.quantity == item.quantity && row.unitPrice == item.unitPrice
      && row.salesAmount == item.quantity * item.unitPrice
  {
    hide DbtStatus, LastLoad, Total;
  }

  lemma {:induction false} LastLoadAttained(payments: map<Key, Payment>)
    ensures if payments == map[] then LastLoad(payments) == EPOCH
            else exists p :: p in payments && payments[p].loadedAt == LastLoad(payments)
  {
    var times := map p | p in payments :: payments[p].loadedAt;
    assert times.Keys == payments.Keys;
    if times != map[] {
      var p :| p in times && times[p] == HighWater(times);
    }
  }

  // ----- The engines agree -----

  /** Column by column: all but the payment status agree always, the status outside the exceptional case. */
  lemma {:induction false} RowsAgree(item: Item, order: Order, payments: map<Key, Payment>)
    ensures var dbt, spark := RowOf(Dbt, item, order, payments), RowOf(Spark, item, order, payments);
      && dbt.(paymentStatus := "") == spark.(paymentStatus := "")
      && (dbt.paymentStatus == spark.paymentStatus <==> !PaidButUnknown(payments))
  {
    hide DbtStatus, PaidButUnknown, LastLoad;
    StatusesAgree(payments);
    SparkStatusIsRow(item, order, payments);
    DbtStatusOfNone();
  }

  lemma {:induction false} DbtStatusOfNone()
    ensures DbtStatus(map[]) == "unpaid"
  {
  }

  /** Spark's status, read off the sum of its CASE column. */
  lemma {:induction false} SparkStatusIsRow(item: Item, order: Order, payments: map<Key, Payment>)
    ensures RowOf(Spark, item, order, payments).paymentStatus == SparkStatus(payments)
  {
    hide LastLoad, Total;
    var completed := set p | p in payments && IsCompleted(payments[p]);
    IndicatorCounts(Completed(payments), completed);
  }

  /** The dbt and Spark queries return the same rows exactly when no sold order is paid with an unknown attempt. */
  lemma {:induction false} EnginesAgree(s: Staging)
    ensures DbtSales(s) == SparkSales(s) <==>
      forall k :: Joins(s, k) ==> !PaidButUnknown(PaymentsOf(s, s.items[k].orderId))
  {
    hide DbtSales, SparkSales, View, PaidButUnknown, PaymentsOf;
    QueryIsView(Dbt, s);
    QueryIsView(Spark, s);
    ViewsAgree(s);
    LinesAreView(View(Dbt, s), View(Spark, s));
  }

  lemma {:induction false} LinesAreView(a: map<Key, SalesRow>, b: map<Key, SalesRow>)
    ensures Lines(a) == Lines(b) <==> a == b
  {
    if Lines(a) == Lines(b) {
      forall k ensures k in a <==> k in b
        ensures k in a && k in b ==> a[k] == b[k]
      {
        if k in a { assert Line(k, a[k]) in Lines(b); }
        if k in b { assert Line(k, b[k]) in Lines(a); }
      }
    }
  }

  lemma {:induction false} ViewsAgree(s: Staging)
    ensures View(Dbt, s) == View(Spark, s) <==>
      forall k :: Joins(s, k) ==> !PaidButUnknown(PaymentsOf(s, s.items[k].orderId))
  {
    hide RowOf, PaidButUnknown, PaymentsOf;
    var dbt, spark := View(Dbt, s), View(Spark, s);
    assert dbt.Keys == spark.Keys;
    forall k | Joins(s, k)
      ensures dbt[k] == spark[k] <==> !PaidButUnknown(PaymentsOf(s, s.items[k].orderId))
    {
      var a, b := dbt[k], spark[k];
      RowsAgree(s.items[k], s.orders[s.items[k].orderId], PaymentsOf(s, s.items[k].orderId));
      assert a == b <==> a.(paymentStatus := "") == b.(paymentStatus := "") && a.paymentStatus == b.paymentStatus;
    }
  }

  /** A completed payment beside one without a status; the source itself forbids the latter. */
  const UNKNOWN_ATTEMPT := Staging(
    map["o" := Order("c", 5, None, 1)],
    map["k" := Item("o", "x", 1, 100, 1)],
    map["p" := Payment("o", Some("completed"), 1), "q" := Payment("o", None, 1)])

  /** On such a staging table dbt says paid and Spark says partially paid. */
  lemma {:induction false} UnknownAttemptSplitsEngines()
    ensures DbtSales(UNKNOWN_ATTEMPT) != SparkSales(UNKNOWN_ATTEMPT)
    ensures DbtStatus(PaymentsOf(UNKNOWN_ATTEMPT, "o")) == "paid"
    ensures SparkStatus(PaymentsOf(UNKNOWN_ATTEMPT, "o")) == "partially_paid"
  {
    hide DbtSales, SparkSales;
    var payments := PaymentsOf(UNKNOWN_ATTEMPT, "o");
    assert payments == UNKNOWN_ATTEMPT.payments;
    assert "p" in payments && "q" in payments;
    assert "p" in set p | p in payments && payments[p].status.Some?;
    CompletedCount(payments);
    assert PaidButUnknown(payments);
    assert Joins(UNKNOWN_ATTEMPT, "k");
    EnginesAgree(UNKNOWN_ATTEMPT);
  }

  /** With a status on every payment, as the source demands, they always agree. */
  lemma {:induction false} KnownStatusesAgree(s: Staging)
    requires forall p :: p in s.payments ==> s.payments[p].status.Some?
    ensures DbtSales(s) == SparkSales(s) && View(Dbt, s) == View(Spark, s)
  {
    hide View, DbtSales, SparkSales;
    EnginesAgree(s);
    ViewsAgree(s);
  }

  /** When a row was loaded last. */
  lemma {:induction false} RowLoadedAt(e: Engine, item: Item, order: Order, payments: map<Key, Payment>)
    ensures RowOf(e, item, order, payments).loadedAt == Max(Max(order.loadedAt, item.loadedAt), LastLoad(payments))
  {
    hide DbtStatus, Total;
    NoPaymentsLoaded(payments);
  }

  lemma {:induction false} NoPaymentsLoaded(payments: map<Key, Payment>)
    ensures payments == map[] ==> LastLoad(payments) == EPOCH
  {
    assert (map p | p in payments :: payments[p].loadedAt).Keys == payments.Keys;
  }

  // ----- Loading staging -----

  /** One upsert transaction of the pipeline; all its rows carry its time. */
  datatype Batch =
    | OrderBatch(orders: map<Key, Order>)
    | ItemBatch(items: map<Key, Item>)
    | PaymentBatch(payments: map<Key, Payment>)

  function Load(s: Staging, b: Batch): Staging {
    match b
    case OrderBatch(orders) => s.(orders := s.orders + orders)
    case ItemBatch(items) => s.(items := s.items + items)
    case PaymentBatch(payments) => s.(payments := s.payments + payments)
  }

  ghost predicate LoadedAt(b: Batch, now: int) {
    match b
    case OrderBatch(orders) => forall o :: o in orders ==> orders[o].loadedAt == now
    case ItemBatch(items) => forall k :: k in items ==> items[k].loadedAt == now
    case PaymentBatch(payments) => forall p :: p in payments ==> payments[p].loadedAt == now
  }

  /** No payment of the batch belonged to another order before. */
  ghost predicate PaymentsStay(s: Staging, b: Batch) {
    b.PaymentBatch? ==>
      forall p :: p in b.payments && p in s.payments ==> b.payments[p].orderId == s.payments[p].orderId
  }

  /** The payments of an order are untouched, or one of them was just loaded. */
  lemma {:induction false} PaymentsAfterLoad(s: Staging, b: Batch, now: int, o: Key)
    requires LoadedAt(b, now) && PaymentsStay(s, b)
    ensures var after := PaymentsOf(Load(s, b), o);
      after == PaymentsOf(s, o) || exists p :: p in after && after[p].loadedAt == now
  {
    if b.PaymentBatch? {
      var after := PaymentsOf(Load(s, b), o);
      if p :| p in b.payments && b.payments[p].orderId == o {
        assert p in after && after[p].loadedAt == now;
      } else {
        assert after == PaymentsOf(s, o);
      }
    } else {
      assert PaymentsOf(Load(s, b), o) == PaymentsOf(s, o);
    }
  }

  lemma {:induction false} RowIsAsNewAsItsPayments(
      e: Engine, item: Item, order: Order, payments: map<Key, Payment>, p: Key)
    requires p in payments
    ensures payments[p].loadedAt <= RowOf(e, item, order, payments).loadedAt
  {
    hide RowOf;
    RowLoadedAt(e, item, order, payments);
    var times := map q | q in payments :: payments[q].loadedAt;
    assert p in times;
  }

  lemma {:induction false} RowIsAsNewAsItsInputs(e: Engine, item: Item, order: Order, payments: map<Key, Payment>)
    ensures item.loadedAt <= RowOf(e, item, order, payments).loadedAt
    ensures order.loadedAt <= RowOf(e, item, order, payments).loadedAt
  {
    hide RowOf, LastLoad;
    RowLoadedAt(e, item, order, payments);
  }

  /** Change detection: after a load a row of the relation is what it was, or carries the load's time or a later one. */
  lemma {:induction false} ChangedRowsAreNew(e: Engine, s: Staging, b: Batch, now: int, k: Key)
    requires LoadedAt(b, now) && PaymentsStay(s, b)
    requires k in View(e, Load(s, b))
    ensures (k in View(e, s) && View(e, s)[k] == View(e, Load(s, b))[k]) || now <= View(e, Load(s, b))[k].loadedAt
  {
    hide RowOf, PaymentsOf;
    var s' := Load(s, b);
    var item := s'.items[k];
    var order, payments := s'.orders[item.orderId], PaymentsOf(s', item.orderId);
    RowIsAsNewAsItsInputs(e, item, order, payments);
    PaymentsAfterLoad(s, b, now, item.orderId);
    if payments != PaymentsOf(s, item.orderId) {
      var p :| p in payments && payments[p].loadedAt == now;
      RowIsAsNewAsItsPayments(e, item, order, payments, p);
    }
  }

  // ----- Payments that move -----

  ghost predicate Arrives(payments: map<Key, Payment>, o: Key) {
    exists p :: p in payments && payments[p].orderId == o
  }

  ghost predicate Leaves(s: Staging, payments: map<Key, Payment>, o: Key) {
    exists p :: p in payments && p in s.payments && s.payments[p].orderId == o && payments[p].orderId != o
  }

  lemma {:induction false} RowAttempts(e: Engine, item: Item, order: Order, payments: map<Key, Payment>)
    ensures RowOf(e, item, order, payments).paymentAttempts == |payments|
  {
    hide DbtStatus, Total, LastLoad;
  }

  /** The payments of an order after a load of payments. */
  lemma {:induction false} MovedAway(s: Staging, payments: map<Key, Payment>, o: Key)
    requires !Arrives(payments, o)
    ensures var after := PaymentsOf(Load(s, PaymentBatch(payments)), o);
      && (forall p :: p in after ==> p in PaymentsOf(s, o) && after[p] == PaymentsOf(s, o)[p])
      && (Leaves(s, payments, o) ==> |after| < |PaymentsOf(s, o)|)
      && (!Leaves(s, payments, o) ==> after == PaymentsOf(s, o))
  {
    var before, after := PaymentsOf(s, o), PaymentsOf(Load(s, PaymentBatch(payments)), o);
    if p :| p in payments && p in s.payments && s.payments[p].orderId == o && payments[p].orderId != o {
      assert p in before && p !in after;
      ProperSubsetSize(after.Keys, before.Keys);
    }
  }

  lemma {:induction false} ProperSubsetSize<T>(a: set<T>, b: set<T>)
    requires a < b
    ensures |a| < |b|
  {
    SubsetSize(a, b);
    assert |b| == |a| + |b - a| by { assert b == a + (b - a); }
  }

  lemma {:induction false} LastLoadPast(payments: map<Key, Payment>, clock: int)
    requires EPOCH <= clock && forall p :: p in payments ==> payments[p].loadedAt <= clock
    ensures LastLoad(payments) <= clock
  {
    var times := map p | p in payments :: payments[p].loadedAt;
    if times != map[] {
      var p :| p in times && times[p] == HighWater(times);
    }
  }

  /**
   * The exact condition of change detection when payments may move: after a load later than
   * everything staged, an item's row is unchanged or as new as the load iff a payment of the
   * load is for the item's order or no payment leaves that order.
   */
  lemma {:induction false} MovedPaymentsExactly(
      e: Engine, s: Staging, payments: map<Key, Payment>, clock: int, now: int, k: Key)
    requires StagingPast(s, clock) && clock < now && LoadedAt(PaymentBatch(payments), now) && Joins(s, k)
    ensures k in View(e, s) && k in View(e, Load(s, PaymentBatch(payments)))
    ensures var was, row := View(e, s)[k], View(e, Load(s, PaymentBatch(payments)))[k];
      was == row || now <= row.loadedAt <==>
        Arrives(payments, s.items[k].orderId) || !Leaves(s, payments, s.items[k].orderId)
  {
    hide RowOf, PaymentsOf, Leaves, LastLoad;
    var s', item := Load(s, PaymentBatch(payments)), s.items[k];
    var o, order := item.orderId, s.orders[item.orderId];
    RowAttempts(e, item, order, PaymentsOf(s, o));
    RowAttempts(e, item, order, PaymentsOf(s', o));
    if Arrives(payments, o) {
      var p :| p in payments && payments[p].orderId == o;
      assert p in PaymentsOf(s', o) && PaymentsOf(s', o)[p].loadedAt == now by { NewPayment(s, payments, p); }
      RowIsAsNewAsItsPayments(e, item, order, PaymentsOf(s', o), p);
    } else {
      MovedAway(s, payments, o);
      RowLoadedAt(e, item, order, PaymentsOf(s', o));
      forall p | p in PaymentsOf(s, o) ensures PaymentsOf(s, o)[p].loadedAt <= clock {
        StagedPayment(s, o, p);
      }
      LastLoadPast(PaymentsOf(s', o), clock);
    }
  }

  lemma {:induction false} NewPayment(s: Staging, payments: map<Key, Payment>, p: Key)
    requires p in payments
    ensures var after := PaymentsOf(Load(s, PaymentBatch(payments)), payments[p].orderId);
      p in after && after[p] == payments[p]
  {
  }

  lemma {:induction false} StagedPayment(s: Staging, o: Key, p: Key)
    requires p in PaymentsOf(s, o)
    ensures p in s.payments && PaymentsOf(s, o)[p] == s.payments[p]
  {
  }

  const PAID_ORDER := Staging(
    map["o1" := Order("c", 5, None, 1), "o2" := Order("c", 5, None, 1)],
    map["k" := Item("o1", "x", 1, 100, 1)],
    map["p" := Payment("o1", Some("completed"), 2)])

  const MOVED_PAYMENT := PaymentBatch(map["p" := Payment("o2", Some("completed"), 3)])

  lemma {:induction false} PaidRow()
    ensures PaymentsOf(PAID_ORDER, "o1") == PAID_ORDER.payments
    ensures DbtStatus(PAID_ORDER.payments) == "paid" && LastLoad(PAID_ORDER.payments) == 2
  {
    var payments := PAID_ORDER.payments;
    assert PaymentsOf(PAID_ORDER, "o1") == payments;
    assert "p" in set p | p in payments && payments[p].status.Some?;
    assert (map p | p in payments :: payments[p].loadedAt) == map["p" := 2];
  }

  lemma {:induction false} UnpaidRow()
    ensures PaymentsOf(Load(PAID_ORDER, MOVED_PAYMENT), "o1") == map[]
    ensures DbtStatus(map[]) == "unpaid" && LastLoad(map[]) == EPOCH
  {
    assert PaymentsOf(Load(PAID_ORDER, MOVED_PAYMENT), "o1") == map[];
    NoPaymentsLoaded(map[]);
  }

  /** A payment that moves to another order changes a row without making it newer: it even looks older. */
  lemma {:induction false} MovedPaymentIsMissed()
    ensures LoadedAt(MOVED_PAYMENT, 3)
    ensures "k" in View(Dbt, PAID_ORDER) && "k" in View(Dbt, Load(PAID_ORDER, MOVED_PAYMENT))
    ensures var was, now := View(Dbt, PAID_ORDER)["k"], View(Dbt, Load(PAID_ORDER, MOVED_PAYMENT))["k"];
      && was.paymentStatus == "paid" && was.loadedAt == 2
      && now.paymentStatus == "unpaid" && now.loadedAt == 1
  {
    hide PaymentsOf, DbtStatus, SparkGroup, LastLoad;
    PaidRow();
    UnpaidRow();
  }

  // ----- Following the relation by high water -----

  function LoadTimes(rows: map<Key, SalesRow>): map<Key, int> {
    map k | k in rows :: rows[k].loadedAt
  }

  ghost function RowsHighWater(rows: map<Key, SalesRow>): int {
    HighWater(LoadTimes(rows))
  }

  /** The rows a mart reads: those above its high water, or all of them on its first build. */
  ghost function Delta(view: map<Key, SalesRow>, rows: map<Key, SalesRow>, incremental: bool): map<Key, SalesRow> {
    map k | k in view && (incremental ==> view[k].loadedAt > RowsHighWater(rows)) :: view[k]
  }

  /** What a mart misses is still above its high water. */
  ghost predicate Follows(rows: map<Key, SalesRow>, view: map<Key, SalesRow>) {
    forall k :: k in view ==> (k in rows && rows[k] == view[k]) || view[k].loadedAt > RowsHighWater(rows)
  }

  /** Every load time in the mart has passed. */
  ghost predicate Past(rows: map<Key, SalesRow>, clock: int) {
    EPOCH <= clock && forall k :: k in rows ==> rows[k].loadedAt <= clock
  }

  /** A mart that has not run since keeps following after any load at a later time. */
  lemma {:induction false} LoadFollows(e: Engine, s: Staging, b: Batch, clock: int, now: int, rows: map<Key, SalesRow>)
    requires Follows(rows, View(e, s)) && Past(rows, clock)
    requires clock < now && LoadedAt(b, now) && PaymentsStay(s, b)
    ensures Follows(rows, View(e, Load(s, b)))
  {
    hide View, Load, HighWater;
    PastHighWater(rows, clock);
    forall k | k in View(e, Load(s, b))
      ensures (k in rows && rows[k] == View(e, Load(s, b))[k]) || View(e, Load(s, b))[k].loadedAt > RowsHighWater(rows)
    {
      ChangedRowsAreNew(e, s, b, now, k);
    }
  }

  lemma {:induction false} PastHighWater(rows: map<Key, SalesRow>, clock: int)
    requires Past(rows, clock)
    ensures RowsHighWater(rows) <= clock
  {
    var times := LoadTimes(rows);
    if times != map[] {
      var k :| k in times && times[k] == HighWater(times);
    }
  }

  /** Merging the delta brings a mart that follows up to date. */
  lemma {:induction false} DeltaCompletes(rows: map<Key, SalesRow>, view: map<Key, SalesRow>, incremental: bool)
    requires Follows(rows, view) && rows.Keys <= view.Keys
    ensures rows + Delta(view, rows, incremental) == view
  {
    hide HighWater;
  }

  /** After an up-to-date mart has run nothing is left to read. */
  lemma {:induction false} NothingNew(view: map<Key, SalesRow>)
    ensures Delta(view, view, true) == map[]
  {
    var times := LoadTimes(view);
    forall k | k in view ensures view[k].loadedAt <= RowsHighWater(view) {
      assert k in times;
    }
  }

  /** Staging rows are never removed, so a row of the relation stays in it while its item names a staged order. */
  ghost predicate Related(s: Staging) {
    forall k :: k in s.items ==> s.items[k].orderId in s.orders
  }

  lemma {:induction false} ViewCoversItems(e: Engine, s: Staging)
    requires Related(s)
    ensures View(e, s).Keys == s.items.Keys
  {
    hide RowOf, PaymentsOf;
  }

  /** Rows of the relation carry load times of staged rows. */
  ghost predicate StagingPast(s: Staging, clock: int) {
    && EPOCH <= clock
    && (forall o :: o in s.orders ==> s.orders[o].loadedAt <= clock)
    && (forall k :: k in s.items ==> EPOCH < s.items[k].loadedAt <= clock)
    && (forall p :: p in s.payments ==> s.payments[p].loadedAt <= clock)
  }

  lemma {:induction false} ViewIsPast(e: Engine, s: Staging, clock: int, k: Key)
    requires StagingPast(s, clock) && k in View(e, s)
    ensures EPOCH < View(e, s)[k].loadedAt <= clock
  {
    hide RowOf;
    var payments := PaymentsOf(s, s.items[k].orderId);
    RowLoadedAt(e, s.items[k], s.orders[s.items[k].orderId], payments);
    var times := map p | p in payments :: payments[p].loadedAt;
    if times != map[] {
      var p :| p in times && times[p] == HighWater(times);
    }
  }
}
