/** From the simulator to the stored Gold tables: what deliveries, replays and merges do to revenue. */
module EndToEnd {
  import opened Options
  import opened Contracts
  import opened Simulator
  import opened SimulatorRuns
  import opened Silver
  import opened SilverReplay
  import opened Relational
  import opened DeltaMerge
  import opened Gold
  import opened GoldFacts
  import opened GoldViews
  import opened GoldRuns

  // ---------------------------------------------------------------- deliveries of a run

  /** Every Bronze row is a delivery of an emitted event; nothing says in what order, how often, or whether at all. */
  ghost predicate Deliveries(seen: set<Verdict>, emitted: seq<Event>) {
    && (forall v | v in seen :: v.row.event in emitted)
    && (forall v, w | v in seen && w in seen && v.row.coord == w.row.coord :: v == w)
  }

  /** Every emitted event was delivered at least once, and none was quarantined. */
  ghost predicate DeliveredInFull(seen: set<Verdict>, emitted: seq<Event>) {
    AllDelivered(seen, emitted) && forall v | v in seen :: v.reason.None?
  }

  ghost predicate AllDelivered(seen: set<Verdict>, emitted: seq<Event>) {
    forall i | 0 <= i < |emitted| :: exists v :: v in seen && v.row.event == emitted[i]
  }

  // The Silver tables hold emitted events only, each under its own position, which is its id.
  ghost predicate Mirrors(t: Tables, emitted: seq<Event>) {
    && Projected(t)
    && forall id | id in t.events :: id < |emitted| && t.events[id].event == emitted[id]
  }

  ghost predicate Priced(products: map<int, Product>, emitted: seq<Event>) {
    forall i | 0 <= i < |emitted| :: WellPriced(products, emitted[i], i)
  }

  // An event id is a position, so no id is ever used for a second content.
  lemma SimulatedContentContract(products: map<int, Product>, emitted: seq<Event>, seen: set<Verdict>)
    requires Priced(products, emitted) && Deliveries(seen, emitted)
    ensures BronzeContract(seen)
    ensures forall v | v in seen ::
              && v.row.event.eventId.Some? && v.row.event.eventId.value < |emitted|
              && v.row.event == emitted[v.row.event.eventId.value]
  {
  }

  lemma {:induction false} SilverMirrorsRun(products: map<int, Product>, emitted: seq<Event>, bs: seq<Batch>)
    requires Priced(products, emitted) && AreBatches(bs) && Deliveries(Verdicts(bs), emitted)
    ensures Mirrors(RunBatches(bs), emitted)
    ensures DeliveredInFull(Verdicts(bs), emitted) ==> forall i: Id | i < |emitted| :: i in RunBatches(bs).events
  {
    SimulatedContentContract(products, emitted, Verdicts(bs));
    SilverRepresentsBronze(bs);
    var t := RunBatches(bs);
    forall id | id in t.events ensures id < |emitted| && t.events[id].event == emitted[id] {
      assert Verdict(t.events[id], None) in Verdicts(bs);
    }
    if DeliveredInFull(Verdicts(bs), emitted) {
      forall i: Id | i < |emitted| ensures i in t.events {
        DeliveryIsHeld(products, emitted, Verdicts(bs), t.events, i);
      }
    }
  }

  lemma DeliveryIsHeld(
      products: map<int, Product>, emitted: seq<Event>, seen: set<Verdict>, events: map<Id, BronzeRow>, i: Id)
    requires Priced(products, emitted) && i < |emitted| && EventsHold(events, seen) && DeliveredInFull(seen, emitted)
    ensures i in events
  {
    assert WellPriced(products, emitted[i], i);
    var v :| v in seen && v.row.event == emitted[i];
  }

  // ---------------------------------------------------------------- one order, its gross and its refund

  /** Quantity times price. */
  function GrossOf(e: Event): int {
    if e.quantity.Some? && e.price.Some? then e.quantity.value * e.price.value else 0
  }

  lemma {:induction false} OneRowInGroup<T, K>(rows: seq<T>, key: T -> Option<K>, k: K, amount: T -> int, i: nat)
    requires i < |rows| && key(rows[i]) == Some(k)
    requires forall j | 0 <= j < |rows| && key(rows[j]) == Some(k) :: j == i
    ensures GroupSum(rows, key, k, amount) == amount(rows[i])
  {
    var n := |rows| - 1;
    if i == n {
      assert forall j | 0 <= j < n :: rows[..n][j] == rows[j];
      NoRowsInGroup(rows[..n], key, k, amount);
    } else {
      OneRowInGroup(rows[..n], key, k, amount, i);
    }
  }

  /** A staged order line is the purchase at its own position, whose order id it carries. */
  lemma OrderLineIsPurchase(t: Tables, emitted: seq<Event>, purchases: seq<Event>, i: nat)
    requires Mirrors(t, emitted) && Ledger(emitted, purchases) && i < |OrdersOf(t)|
    ensures var o := OrdersOf(t)[i];
            && PurchasedAt(emitted, o.lineId) && o.lineId in t.events && o.orderId == Some(o.lineId)
            && LineShows(o, emitted[o.lineId])
  {
  }

  // The staged line has the purchase's columns, and is worth quantity times price.
  predicate LineShows(o: StgOrder, e: Event) {
    && o.customerId == e.userId && o.productId == e.productId && o.orderedAt == e.timestamp
    && o.quantity == e.quantity && o.unitPrice == e.price
    && (e.quantity.Some? && e.price.Some? ==> o.gross == Some(e.quantity.value * e.price.value))
  }

  /** A staged refund is the refund event at its own position, and gives back what its order cost. */
  lemma RefundLineIsRefund(t: Tables, emitted: seq<Event>, purchases: seq<Event>, i: nat)
    requires Mirrors(t, emitted) && Ledger(emitted, purchases) && i < |RefundsOf(t)|
    ensures var r := RefundsOf(t)[i];
            && r.lineId < |emitted| && Is(emitted[r.lineId], Refund) && r.lineId in t.refunds
            && r.orderId == emitted[r.lineId].orderId
            && r.orderId.Some? && PurchasedAt(emitted, r.orderId.value)
            && RefundAmount(r) == GrossOf(emitted[r.orderId.value])
  {
    var row := Scan(t.refunds)[i];
    assert row.0 in t.refunds && t.refunds[row.0] == row.1;
    var e := emitted[row.0];
    assert GivesBack(e, emitted[..row.0], e.orderId.value);
  }

  // Some refund of this order has reached Silver.
  ghost predicate RefundArrived(t: Tables, order: Id) {
    exists id :: id in t.refunds && t.refunds[id].orderId == Some(order)
  }

  lemma RefundLinesDistinct(t: Tables, emitted: seq<Event>, purchases: seq<Event>)
    requires Mirrors(t, emitted) && Ledger(emitted, purchases)
    ensures forall i, j | 0 <= i < |RefundsOf(t)| && 0 <= j < |RefundsOf(t)|
                          && RefundsOf(t)[i].orderId == RefundsOf(t)[j].orderId ::
              i == j
  {
    forall i, j | 0 <= i < |RefundsOf(t)| && 0 <= j < |RefundsOf(t)|
                  && RefundsOf(t)[i].orderId == RefundsOf(t)[j].orderId
      ensures i == j
    {
      RefundLineIsRefund(t, emitted, purchases, i);
      RefundLineIsRefund(t, emitted, purchases, j);
    }
  }

  /** All of an order is refunded or nothing is, and all of it exactly when its refund has arrived. */
  lemma RefundedIsAllOrNothing(t: Tables, emitted: seq<Event>, purchases: seq<Event>, order: Id)
    requires Mirrors(t, emitted) && Ledger(emitted, purchases) && PurchasedAt(emitted, order)
    ensures RefundedFor(Some(order), RefundsOf(t)) == if RefundArrived(t, order) then GrossOf(emitted[order]) else 0
  {
    var refunds := RefundsOf(t);
    if RefundArrived(t, order) {
      var id :| id in t.refunds && t.refunds[id].orderId == Some(order);
      var i := ScanHas(Scan(t.refunds), t.refunds, id);
      RefundLineIsRefund(t, emitted, purchases, i);
      RefundLinesDistinct(t, emitted, purchases);
      OneRowInGroup(refunds, RefundOrder, order, RefundAmount, i);
    } else {
      forall i | 0 <= i < |refunds| ensures RefundOrder(refunds[i]) != Some(order) {
        var row := Scan(t.refunds)[i];
        assert row.0 in t.refunds && t.refunds[row.0] == row.1;
      }
      NoRowsInGroup(refunds, RefundOrder, order, RefundAmount);
    }
  }

  // The sale's columns are the purchase's, and its gross is their quantity times their price.
  predicate SaleShowsPurchase(s: SaleFact, e: Event) {
    && e.userId == Some(s.customerKey) && e.productId == Some(s.productKey) && s.soldAt == e.timestamp
    && s.quantity == e.quantity && s.unitPrice == e.price
    && e.quantity.Some? && e.price.Some? && s.gross == Some(e.quantity.value * e.price.value)
  }

  /** A sale row that is true to the run: its own purchase, refunded in full or not at all. */
  ghost predicate TrueSale(s: SaleFact, t: Tables, emitted: seq<Event>) {
    && PurchasedAt(emitted, s.saleKey) && s.saleKey in t.events && s.orderId == Some(s.saleKey)
    && SaleShowsPurchase(s, emitted[s.saleKey]) && 0 < s.gross.value
    && s.refunded == (if RefundArrived(t, s.saleKey) then s.gross.value else 0)
    && s.net == Some(s.gross.value - s.refunded)
    && 0 <= s.refunded <= s.gross.value
  }

  lemma GrossIsPositive(products: map<int, Product>, emitted: seq<Event>, i: nat)
    requires GoodCatalogue(products) && Priced(products, emitted) && PurchasedAt(emitted, i)
    ensures emitted[i].quantity.Some? && emitted[i].price.Some? && 0 < GrossOf(emitted[i])
  {
    assert WellPriced(products, emitted[i], i);
    var id := emitted[i].productId.value;
    assert id in products && emitted[i].price == Some(products[id].price);
    assert 0 < products[id].price;
    PositiveProduct(emitted[i].quantity.value, emitted[i].price.value);
  }

  lemma PositiveProduct(quantity: int, price: int)
    requires 1 <= quantity && 0 < price
    ensures 0 < quantity * price
  {
  }

  /** fact_sales has one true row for each delivered purchase. */
  lemma SalesAreTrue(products: map<int, Product>, t: Tables, emitted: seq<Event>, purchases: seq<Event>)
    requires GoodCatalogue(products) && Priced(products, emitted) && Ledger(emitted, purchases) && Mirrors(t, emitted)
    ensures |SalesOf(t)| == |OrdersOf(t)|
    ensures forall i | 0 <= i < |SalesOf(t)| ::
              SalesOf(t)[i].saleKey == OrdersOf(t)[i].lineId && TrueSale(SalesOf(t)[i], t, emitted)
  {
    SaleLines(t);
    var sales := SalesOf(t);
    forall i | 0 <= i < |sales| ensures sales[i].saleKey == OrdersOf(t)[i].lineId && TrueSale(sales[i], t, emitted) {
      SaleIsTrue(products, t, emitted, purchases, i, sales[i]);
    }
  }

  lemma SaleIsTrue(
      products: map<int, Product>, t: Tables, emitted: seq<Event>, purchases: seq<Event>, i: nat, s: SaleFact)
    requires GoodCatalogue(products) && Priced(products, emitted) && Ledger(emitted, purchases) && Mirrors(t, emitted)
    requires i < |OrdersOf(t)| && SaleOf(s, OrdersOf(t)[i], RefundedFor(OrdersOf(t)[i].orderId, RefundsOf(t)))
    ensures TrueSale(s, t, emitted)
  {
    var o := OrdersOf(t)[i];
    OrderLineIsPurchase(t, emitted, purchases, i);
    GrossIsPositive(products, emitted, o.lineId);
    RefundedIsAllOrNothing(t, emitted, purchases, o.lineId);
    TrueRow(s, o, t, emitted);
  }

  lemma TrueRow(s: SaleFact, o: StgOrder, t: Tables, emitted: seq<Event>)
    requires PurchasedAt(emitted, o.lineId) && o.lineId in t.events && o.orderId == Some(o.lineId)
    requires LineShows(o, emitted[o.lineId]) && 0 < GrossOf(emitted[o.lineId])
    requires emitted[o.lineId].quantity.Some? && emitted[o.lineId].price.Some?
    requires SaleOf(s, o, if RefundArrived(t, o.lineId) then GrossOf(emitted[o.lineId]) else 0)
    ensures TrueSale(s, t, emitted)
  {
  }

  // ---------------------------------------------------------------- net revenue and outstanding purchases

  function Upto(n: nat): (ids: seq<Id>)
    ensures |ids| == n && forall i | 0 <= i < n :: ids[i] == i
  {
    seq(n, i => i)
  }

  lemma {:induction false} SumsOfEqualGroups<T, U, K>(
      rows: seq<T>, key: T -> Option<K>, amount: T -> int,
      others: seq<U>, tag: U -> Option<K>, weight: U -> int, keys: seq<K>)
    requires forall i | 0 <= i < |keys| ::
               GroupSum(rows, key, keys[i], amount) == GroupSum(others, tag, keys[i], weight)
    ensures SumOfGroups(rows, key, keys, amount) == SumOfGroups(others, tag, keys, weight)
  {
    if keys != [] {
      SumsOfEqualGroups(rows, key, amount, others, tag, weight, keys[..|keys| - 1]);
    }
  }

  /** Two tables whose groups have equal sums have equal sums. */
  lemma {:induction false} EqualGroupsEqualSum<T, U, K>(
      rows: seq<T>, key: T -> Option<K>, amount: T -> int,
      others: seq<U>, tag: U -> Option<K>, weight: U -> int, keys: seq<K>)
    requires NoDuplicates(keys)
    requires forall i | 0 <= i < |rows| :: key(rows[i]).Some? && key(rows[i]).value in keys
    requires forall i | 0 <= i < |others| :: tag(others[i]).Some? && tag(others[i]).value in keys
    requires forall i | 0 <= i < |keys| ::
               GroupSum(rows, key, keys[i], amount) == GroupSum(others, tag, keys[i], weight)
    ensures Sum(rows, amount) == Sum(others, weight)
  {
    GroupSumsAddUp(rows, key, keys, amount, amount);
    GroupSumsAddUp(others, tag, keys, weight, weight);
    SumsOfEqualGroups(rows, key, amount, others, tag, weight, keys);
  }

  function SaleId(s: SaleFact): Option<Id> { Some(s.saleKey) }

  function EventId(e: Event): Option<Id> { e.eventId }

  // What is outstanding on the order placed at position k.
  ghost function OutstandingAt(emitted: seq<Event>, k: Id): int {
    if PurchasedAt(emitted, k) && !Refunded(emitted, k) then GrossOf(emitted[k]) else 0
  }

  lemma {:induction false} OutstandingGroup(emitted: seq<Event>, purchases: seq<Event>, k: Id)
    requires Ledger(emitted, purchases)
    ensures GroupSum(purchases, EventId, k, GrossOf) == OutstandingAt(emitted, k)
  {
    if PurchasedAt(emitted, k) && !Refunded(emitted, k) {
      var l :| 0 <= l < |purchases| && purchases[l].eventId == Some(k);
      assert OutstandingEntry(emitted, purchases[l]);
      OneRowInGroup(purchases, EventId, k, GrossOf, l);
    } else {
      forall l | 0 <= l < |purchases| ensures EventId(purchases[l]) != Some(k) {
        assert OutstandingEntry(emitted, purchases[l]);
        assert EventId(purchases[l]) == Some(k) ==> IsOutstanding(purchases, k);
      }
      NoRowsInGroup(purchases, EventId, k, GrossOf);
    }
  }

  ghost predicate Complete(t: Tables, emitted: seq<Event>) {
    Mirrors(t, emitted) && forall i: Id | i < |emitted| :: i in t.events
  }

  lemma RefundArrivedExactly(t: Tables, emitted: seq<Event>, k: Id)
    requires Complete(t, emitted)
    ensures RefundArrived(t, k) <==> Refunded(emitted, k)
  {
    if RefundArrived(t, k) {
      var id :| id in t.refunds && t.refunds[id].orderId == Some(k);
      assert Is(emitted[id], Refund) && emitted[id].orderId == Some(k);
    }
    if Refunded(emitted, k) {
      var j :| 0 <= j < |emitted| && Is(emitted[j], Refund) && emitted[j].orderId == Some(k);
      var id: Id := j;
      assert id in t.refunds && t.refunds[id].orderId == Some(k);
    }
  }

  // One true row whose order is still outstanding, refunded, or not there at all.
  lemma TrueNet(s: SaleFact, t: Tables, emitted: seq<Event>)
    requires TrueSale(s, t, emitted) && (RefundArrived(t, s.saleKey) <==> Refunded(emitted, s.saleKey))
    ensures SaleNet(s) == OutstandingAt(emitted, s.saleKey)
  {
  }

  lemma {:induction false} SalesGroup(
      products: map<int, Product>, t: Tables, emitted: seq<Event>, purchases: seq<Event>, k: Id)
    requires GoodCatalogue(products) && Priced(products, emitted) && Ledger(emitted, purchases) && Complete(t, emitted)
    ensures GroupSum(SalesOf(t), SaleId, k, SaleNet) == OutstandingAt(emitted, k)
  {
    var sales := SalesOf(t);
    SaleKeys(t, k);
    if k in t.orders {
      SalesAreTrue(products, t, emitted, purchases);
      var i :| 0 <= i < |sales| && SaleKey(sales[i]) == k;
      assert TrueSale(sales[i], t, emitted);
      KeyedGroup(sales, i);
      RefundArrivedExactly(t, emitted, k);
      TrueNet(sales[i], t, emitted);
    } else {
      KeylessGroup(sales, k);
      assert !PurchasedAt(emitted, k);
    }
  }

  lemma {:induction false} KeyedGroup(sales: seq<SaleFact>, i: nat)
    requires i < |sales| && UniqueKeys(sales, SaleKey)
    ensures GroupSum(sales, SaleId, SaleKey(sales[i]), SaleNet) == SaleNet(sales[i])
  {
    forall j | 0 <= j < |sales| && SaleId(sales[j]) == SaleId(sales[i]) ensures j == i {
      assert SaleKey(sales[i]) == SaleKey(sales[j]);
    }
    OneRowInGroup(sales, SaleId, SaleKey(sales[i]), SaleNet, i);
  }

  lemma {:induction false} KeylessGroup(sales: seq<SaleFact>, k: Id)
    requires !HasKey(sales, SaleKey, k)
    ensures GroupSum(sales, SaleId, k, SaleNet) == 0
  {
    forall i | 0 <= i < |sales| ensures SaleId(sales[i]) != Some(k) {
      assert SaleKey(sales[i]) != k;
    }
    NoRowsInGroup(sales, SaleId, k, SaleNet);
  }

  /** With everything delivered, net revenue is what the simulator still has outstanding. */
  lemma {:induction false} NetIsOutstanding(
      products: map<int, Product>, t: Tables, emitted: seq<Event>, purchases: seq<Event>)
    requires GoodCatalogue(products) && Priced(products, emitted) && Ledger(emitted, purchases) && Complete(t, emitted)
    ensures Sum(SalesOf(t), SaleNet) == Sum(purchases, GrossOf)
  {
    var keys := Upto(|emitted|);
    SalesCovered(products, t, emitted, purchases);
    PurchasesCovered(emitted, purchases);
    forall i | 0 <= i < |keys|
      ensures GroupSum(SalesOf(t), SaleId, keys[i], SaleNet) == GroupSum(purchases, EventId, keys[i], GrossOf)
    {
      SalesGroup(products, t, emitted, purchases, keys[i]);
      OutstandingGroup(emitted, purchases, keys[i]);
    }
    EqualGroupsEqualSum(SalesOf(t), SaleId, SaleNet, purchases, EventId, GrossOf, keys);
  }

  lemma {:induction false} SalesCovered(
      products: map<int, Product>, t: Tables, emitted: seq<Event>, purchases: seq<Event>)
    requires GoodCatalogue(products) && Priced(products, emitted) && Ledger(emitted, purchases) && Mirrors(t, emitted)
    ensures forall i | 0 <= i < |SalesOf(t)| ::
              SaleId(SalesOf(t)[i]).Some? && SaleId(SalesOf(t)[i]).value in Upto(|emitted|)
  {
    SalesAreTrue(products, t, emitted, purchases);
    forall i | 0 <= i < |SalesOf(t)| ensures SaleId(SalesOf(t)[i]).value in Upto(|emitted|) {
      assert TrueSale(SalesOf(t)[i], t, emitted);
      InUpto(|emitted|, SalesOf(t)[i].saleKey);
    }
  }

  lemma {:induction false} PurchasesCovered(emitted: seq<Event>, purchases: seq<Event>)
    requires Ledger(emitted, purchases)
    ensures forall l | 0 <= l < |purchases| ::
              EventId(purchases[l]).Some? && EventId(purchases[l]).value in Upto(|emitted|)
  {
    forall l | 0 <= l < |purchases|
      ensures EventId(purchases[l]).Some? && EventId(purchases[l]).value in Upto(|emitted|)
    {
      assert OutstandingEntry(emitted, purchases[l]);
      InUpto(|emitted|, purchases[l].eventId.value);
    }
  }

  lemma InUpto(n: nat, id: Id)
    requires id < n
    ensures id in Upto(n)
  {
    assert Upto(n)[id] == id;
  }

  // What every simulator run gives to the rest of the pipeline.
  lemma {:induction false} SimulatedFacts(products: map<int, Product>, calls: seq<Call>)
    requires Legal(products, calls)
    ensures GoodCatalogue(products) && Priced(products, RunOf(products, calls).emitted)
    ensures Ledger(RunOf(products, calls).emitted, RunOf(products, calls).sim.purchases)
    ensures OneUserPerSession(RunOf(products, calls).emitted)
  {
    EveryRunKeepsTheInvariant(products, calls);
  }

  // ---------------------------------------------------------------- theorems over runs and deliveries

  /**
    However the events of a simulator run are reordered, repeated, withheld, cut into batches and
    replayed, every fact_sales row is refunded in full or not at all.
   */
  lemma {:induction false} EverySaleIsAllOrNothing(products: map<int, Product>, calls: seq<Call>, bs: seq<Batch>)
    requires Legal(products, calls) && AreBatches(bs)
    requires Deliveries(Verdicts(bs), RunOf(products, calls).emitted)
    ensures var t := RunBatches(bs);
            && |SalesOf(t)| == |OrdersOf(t)|
            && forall i | 0 <= i < |SalesOf(t)| :: TrueSale(SalesOf(t)[i], t, RunOf(products, calls).emitted)
  {
    SimulatedFacts(products, calls);
    var w := RunOf(products, calls);
    SilverMirrorsRun(products, w.emitted, bs);
    SalesAreTrue(products, RunBatches(bs), w.emitted, w.sim.purchases);
  }

  /** When every event has been delivered and none quarantined, net revenue equals the purchases still outstanding. */
  lemma {:induction false} NetRevenueEqualsOutstanding(products: map<int, Product>, calls: seq<Call>, bs: seq<Batch>)
    requires Legal(products, calls) && AreBatches(bs)
    requires Deliveries(Verdicts(bs), RunOf(products, calls).emitted)
    requires DeliveredInFull(Verdicts(bs), RunOf(products, calls).emitted)
    ensures Sum(SalesOf(RunBatches(bs)), SaleNet) == Sum(RunOf(products, calls).sim.purchases, GrossOf)
  {
    SimulatedFacts(products, calls);
    var w := RunOf(products, calls);
    SilverMirrorsRun(products, w.emitted, bs);
    NetIsOutstanding(products, RunBatches(bs), w.emitted, w.sim.purchases);
  }

  /**
    Silver quarantines a simulated event exactly when the batch's clock is behind the event's, and for no other
    reason.
   */
  lemma {:induction false} SimulatedEventsQuarantinedExactly(
      products: map<int, Product>, calls: seq<Call>, i: nat, now: int)
    requires Legal(products, calls) && i < |RunOf(products, calls).emitted|
    ensures var e := RunOf(products, calls).emitted[i];
            && e.timestamp.Some?
            && Classify(e, now) == if now < e.timestamp.value then Some(FutureTimestamp) else None
  {
    SimulatedFacts(products, calls);
    var e := RunOf(products, calls).emitted[i];
    assert WellPriced(products, e, i);
    if Is(e, Purchase) {
      var id := e.productId.value;
      assert id in products && e.price == Some(products[id].price);
      assert 0 < products[id].price;
    }
  }

  // No clock of any batch is behind an event that the batch holds.
  ghost predicate Punctual(bs: seq<Batch>) {
    forall i, r | 0 <= i < |bs| && r in bs[i].rows && r.event.timestamp.Some? :: r.event.timestamp.value <= bs[i].now
  }

  lemma {:induction false} PunctualVerdicts(products: map<int, Product>, calls: seq<Call>, bs: seq<Batch>)
    requires Legal(products, calls) && Punctual(bs)
    requires forall v | v in Verdicts(bs) :: v.row.event in RunOf(products, calls).emitted
    ensures forall v | v in Verdicts(bs) :: v.reason.None?
  {
    if bs != [] {
      var n := |bs| - 1;
      assert forall i | 0 <= i < n :: bs[..n][i] == bs[i];
      PunctualVerdicts(products, calls, bs[..n]);
      forall v | v in VerdictsOf(bs[n]) ensures v.reason.None? {
        var emitted := RunOf(products, calls).emitted;
        var i :| 0 <= i < |emitted| && emitted[i] == v.row.event;
        SimulatedEventsQuarantinedExactly(products, calls, i, bs[n].now);
        assert v.row in bs[n].rows;
      }
    }
  }

  // ---------------------------------------------------------------- dbt runs between batches

  lemma BatchGrows(t: Tables, b: Batch)
    requires IsBatch(b)
    ensures Grows(t, Replayed(t, b))
  {
    AttemptsKeepEvents(t, b.rows, b.crashed + [b.full]);
  }

  lemma {:induction false} OneBatchGrows(bs: seq<Batch>, n: nat)
    requires AreBatches(bs) && 0 < n <= |bs|
    ensures Grows(RunBatches(bs[..n - 1]), RunBatches(bs[..n]))
  {
    assert bs[..n][..n - 1] == bs[..n - 1];
    BatchGrows(RunBatches(bs[..n - 1]), bs[n - 1]);
  }

  lemma GrowsThrough(s: Tables, t: Tables, u: Tables)
    requires Grows(s, t) && Grows(t, u)
    ensures Grows(s, u)
  {
  }

  lemma {:induction false} SilverGrows(bs: seq<Batch>, m: nat, n: nat)
    requires AreBatches(bs) && m <= n <= |bs|
    ensures Grows(RunBatches(bs[..m]), RunBatches(bs[..n]))
    decreases n
  {
    if m < n {
      SilverGrows(bs, m, n - 1);
      OneBatchGrows(bs, n);
      GrowsThrough(RunBatches(bs[..m]), RunBatches(bs[..n - 1]), RunBatches(bs[..n]));
    }
  }

  lemma {:induction false} EarlierVerdicts(bs: seq<Batch>, n: nat)
    requires n <= |bs|
    ensures Verdicts(bs[..n]) <= Verdicts(bs)
  {
    if n < |bs| {
      EarlierVerdicts(bs[..|bs| - 1], n);
      assert bs[..|bs| - 1][..n] == bs[..n];
    } else {
      assert bs[..n] == bs;
    }
  }

  lemma SessionsStayOwned(t: Tables, emitted: seq<Event>)
    requires Mirrors(t, emitted) && OneUserPerSession(emitted)
    ensures OneCustomerPerSession(t)
  {
  }

  // A dbt run after so many completed batches, on such a day, which reached such tables.
  datatype Cut = Cut(batches: nat, today: int, reached: set<TableName>)

  ghost predicate Schedule(cuts: seq<Cut>, bs: seq<Batch>)
    requires AreBatches(bs)
  {
    && (forall i | 0 <= i < |cuts| :: cuts[i].batches <= |bs| && DimensionsFirst(RunAt(cuts[i], bs)))
    && (forall i | 0 <= i < |cuts| - 1 :: cuts[i].batches <= cuts[i + 1].batches)
  }

  ghost function RunAt(cut: Cut, bs: seq<Batch>): Run
    requires AreBatches(bs) && cut.batches <= |bs|
  {
    Run(RunBatches(bs[..cut.batches]), cut.today, cut.reached)
  }

  ghost function RunsAt(cuts: seq<Cut>, bs: seq<Batch>): (runs: seq<Run>)
    requires AreBatches(bs) && Schedule(cuts, bs)
    ensures |runs| == |cuts| && forall i | 0 <= i < |cuts| :: runs[i] == RunAt(cuts[i], bs)
  {
    seq(|cuts|, i requires 0 <= i < |cuts| => RunAt(cuts[i], bs))
  }

  lemma {:induction false} SilverAtCut(products: map<int, Product>, calls: seq<Call>, bs: seq<Batch>, n: nat)
    requires Legal(products, calls) && AreBatches(bs) && n <= |bs|
    requires Deliveries(Verdicts(bs), RunOf(products, calls).emitted)
    ensures Mirrors(RunBatches(bs[..n]), RunOf(products, calls).emitted)
    ensures OneCustomerPerSession(RunBatches(bs[..n]))
  {
    SimulatedFacts(products, calls);
    EarlierVerdicts(bs, n);
    SilverMirrorsRun(products, RunOf(products, calls).emitted, bs[..n]);
    SessionsStayOwned(RunBatches(bs[..n]), RunOf(products, calls).emitted);
  }

  lemma {:induction false} ScheduleIsHistory(
      products: map<int, Product>, calls: seq<Call>, bs: seq<Batch>, cuts: seq<Cut>)
    requires Legal(products, calls) && AreBatches(bs) && Schedule(cuts, bs)
    requires Deliveries(Verdicts(bs), RunOf(products, calls).emitted)
    ensures IsHistory(RunsAt(cuts, bs))
  {
    var runs := RunsAt(cuts, bs);
    forall i | 0 <= i < |runs| ensures Projected(runs[i].silver) {
      SilverAtCut(products, calls, bs, cuts[i].batches);
    }
    forall i | 0 <= i < |runs| - 1 ensures Grows(runs[i].silver, runs[i + 1].silver) {
      SilverGrows(bs, cuts[i].batches, cuts[i + 1].batches);
    }
  }

  function KeyOf<V, K>(key: V -> K): V -> Option<K> { v => Some(key(v)) }

  /** Tables with the same rows have the same totals. */
  lemma {:induction false} SameRowsSameSum<V, K>(a: seq<V>, b: seq<V>, key: V -> K, amount: V -> int)
    requires SameRows(a, b, key)
    ensures Sum(a, amount) == Sum(b, amount)
  {
    var keys := GroupKeys(a, KeyOf(key));
    forall i | 0 <= i < |b| ensures key(b[i]) in keys {
      var j :| 0 <= j < |a| && a[j] == b[i];
      assert KeyOf(key)(a[j]) == Some(key(b[i]));
    }
    forall i | 0 <= i < |keys|
      ensures GroupSum(a, KeyOf(key), keys[i], amount) == GroupSum(b, KeyOf(key), keys[i], amount)
    {
      assert keys[i] in keys;
      var j :| 0 <= j < |a| && KeyOf(key)(a[j]) == Some(keys[i]);
      var l :| 0 <= l < |b| && b[l] == a[j];
      OneRowInGroup(a, KeyOf(key), keys[i], amount, j);
      OneRowInGroup(b, KeyOf(key), keys[i], amount, l);
    }
    EqualGroupsEqualSum(a, KeyOf(key), amount, b, KeyOf(key), amount, keys);
  }

  // The last run is complete, and sees every batch.
  ghost predicate EndsComplete(cuts: seq<Cut>, bs: seq<Batch>) {
    && cuts != []
    && cuts[|cuts| - 1].batches == |bs| && cuts[|cuts| - 1].reached == AllTables
  }

  lemma {:induction false} LastRunSeesAll(cuts: seq<Cut>, bs: seq<Batch>)
    requires AreBatches(bs) && Schedule(cuts, bs) && EndsComplete(cuts, bs)
    ensures RunsAt(cuts, bs)[|cuts| - 1] == Run(RunBatches(bs), cuts[|cuts| - 1].today, AllTables)
  {
    assert bs[..|bs|] == bs;
  }

  lemma {:induction false} EndsOnOwnedSessions(
      products: map<int, Product>, calls: seq<Call>, bs: seq<Batch>, cuts: seq<Cut>)
    requires Legal(products, calls) && AreBatches(bs) && Schedule(cuts, bs) && EndsComplete(cuts, bs)
    requires Deliveries(Verdicts(bs), RunOf(products, calls).emitted)
    ensures OneCustomerPerSession(RunBatches(bs))
    ensures RunsAt(cuts, bs)[|cuts| - 1] == Run(RunBatches(bs), cuts[|cuts| - 1].today, AllTables)
  {
    SilverAtCut(products, calls, bs, |bs|);
    assert bs[..|bs|] == bs;
    LastRunSeesAll(cuts, bs);
  }

  /**
    dbt runs at any times between the batches of a simulator run's deliveries, each stopping after any of
    its merges but the last: none fails, and the last leaves what a rebuild gives, dates of an empty start aside.
   */
  lemma {:induction false} ScheduledRunsEqualRebuild(
      products: map<int, Product>, calls: seq<Call>, bs: seq<Batch>, cuts: seq<Cut>)
    requires Legal(products, calls) && AreBatches(bs) && Schedule(cuts, bs) && EndsComplete(cuts, bs)
    requires Deliveries(Verdicts(bs), RunOf(products, calls).emitted)
    ensures AfterRuns(RunsAt(cuts, bs)).Some?
    ensures SameButDates(
              AfterRuns(RunsAt(cuts, bs)).value, Rebuild(Run(RunBatches(bs), cuts[|cuts| - 1].today, AllTables)))
  {
    ScheduleIsHistory(products, calls, bs, cuts);
    EndsOnOwnedSessions(products, calls, bs, cuts);
    CompleteRun(RunsAt(cuts, bs), Run(RunBatches(bs), cuts[|cuts| - 1].today, AllTables));
  }

  lemma {:induction false} CompleteRun(runs: seq<Run>, last: Run)
    requires IsHistory(runs) && runs != [] && runs[|runs| - 1] == last
    requires last.reached == AllTables && OneCustomerPerSession(last.silver)
    ensures AfterRuns(runs).Some? && SameButDates(AfterRuns(runs).value, Rebuild(last))
  {
    GoldEqualsRebuildExactly(runs);
  }

  lemma {:induction false} StoredSales(stored: seq<SaleFact>, sales: seq<SaleFact>, t: Tables, emitted: seq<Event>)
    requires SameRows(stored, sales, SaleKey)
    requires forall i | 0 <= i < |sales| :: TrueSale(sales[i], t, emitted)
    ensures forall i | 0 <= i < |stored| :: TrueSale(stored[i], t, emitted)
    ensures Sum(stored, SaleNet) == Sum(sales, SaleNet)
  {
    SameRowsSameSum(stored, sales, SaleKey, SaleNet);
    forall i | 0 <= i < |stored| ensures TrueSale(stored[i], t, emitted) {
      var j :| 0 <= j < |sales| && sales[j] == stored[i];
    }
  }

  /**
    The whole pipeline: dbt runs at any times between any batches of a simulator run's deliveries never
    fail; the last stores one row for each delivered purchase, refunded in full or not at all; and after
    everything is delivered, to batches whose clocks are not behind, the stored net revenue is what the
    simulator has outstanding.
   */
  lemma {:induction false} StoredRevenueIsOutstanding(
      products: map<int, Product>, calls: seq<Call>, bs: seq<Batch>, cuts: seq<Cut>)
    requires Legal(products, calls) && AreBatches(bs) && Schedule(cuts, bs) && EndsComplete(cuts, bs)
    requires Deliveries(Verdicts(bs), RunOf(products, calls).emitted)
    ensures AfterRuns(RunsAt(cuts, bs)).Some?
    ensures var stored, w := AfterRuns(RunsAt(cuts, bs)).value.sales, RunOf(products, calls);
            && SameRows(stored, SalesOf(RunBatches(bs)), SaleKey)
            && (forall i | 0 <= i < |stored| :: TrueSale(stored[i], RunBatches(bs), w.emitted))
            && (AllDelivered(Verdicts(bs), w.emitted) && Punctual(bs) ==>
                  Sum(stored, SaleNet) == Sum(w.sim.purchases, GrossOf))
  {
    var t, emitted := RunBatches(bs), RunOf(products, calls).emitted;
    ScheduledRunsEqualRebuild(products, calls, bs, cuts);
    EverySaleIsAllOrNothing(products, calls, bs);
    StoredSales(AfterRuns(RunsAt(cuts, bs)).value.sales, SalesOf(t), t, emitted);
    if AllDelivered(Verdicts(bs), emitted) && Punctual(bs) {
      PunctualVerdicts(products, calls, bs);
      NetRevenueEqualsOutstanding(products, calls, bs);
    }
  }
}
