/** Grain and totals of the Gold models: the joins lose nothing, repeat nothing, and agree on revenue. */
module GoldFacts {
  import opened Options
  import opened Contracts
  import opened Silver
  import opened Relational
  import opened DeltaMerge
  import opened Gold

  function CustomerKey(c: DimCustomer): int { c.customerId }

  function ProductKey(p: DimProduct): int { p.productId }

  function CustomerGross(c: DimCustomer): int { c.lifetimeGross }

  function MetricGross(m: SalesMetric): int { m.gross }

  function SaleGross(s: SaleFact): int { OrZero(s.gross) }

  function SaleNet(s: SaleFact): int { OrZero(s.net) }

  /** Every order line has its customer and its product in the dimensions, and the dimensions have one row per key. */
  ghost predicate Joinable(orders: seq<StgOrder>, customers: seq<DimCustomer>, products: seq<DimProduct>) {
    && UniqueKeys(customers, CustomerKey) && UniqueKeys(products, ProductKey)
    && (forall i | 0 <= i < |orders| :: SomeMatch(orders[i], customers, OrderedBy))
    && (forall i | 0 <= i < |orders| :: SomeMatch(orders[i], products, OrderedProduct))
  }

  /** The inner joins keep each order line exactly once, in order, with its own customer and product. */
  lemma OrderLinesOneToOne(orders: seq<StgOrder>, customers: seq<DimCustomer>, products: seq<DimProduct>)
    requires Joinable(orders, customers, products)
    ensures var lines := OrderLines(orders, customers, products);
            && |lines| == |orders|
            && forall i | 0 <= i < |orders| ::
                 && lines[i].0.0 == orders[i]
                 && Some(lines[i].0.1.customerId) == orders[i].customerId
                 && Some(lines[i].1.productId) == orders[i].productId
  {
    forall i | 0 <= i < |orders| ensures AtMostOneMatch(orders[i], customers, OrderedBy) {
      OneCustomer(orders[i], customers);
    }
    InnerJoinIsOneToOne(orders, customers, OrderedBy);
    var pairs := InnerJoin(orders, customers, OrderedBy);
    forall i | 0 <= i < |pairs|
      ensures SomeMatch(pairs[i], products, LineOfProduct) && AtMostOneMatch(pairs[i], products, LineOfProduct)
    {
      assert pairs[i].0 == orders[i];
      var k :| 0 <= k < |products| && OrderedProduct(orders[i], products[k]);
      assert LineOfProduct(pairs[i], products[k]);
      OneProduct(pairs[i], products);
    }
    InnerJoinIsOneToOne(pairs, products, LineOfProduct);
  }

  lemma OneCustomer(o: StgOrder, customers: seq<DimCustomer>)
    requires UniqueKeys(customers, CustomerKey)
    ensures AtMostOneMatch(o, customers, OrderedBy)
  {
  }

  lemma OneProduct(x: (StgOrder, DimCustomer), products: seq<DimProduct>)
    requires UniqueKeys(products, ProductKey)
    ensures AtMostOneMatch(x, products, LineOfProduct)
  {
  }

  /** fact_orders has exactly one row per order line, in order. */
  lemma FactOrdersGrain(orders: seq<StgOrder>, customers: seq<DimCustomer>, products: seq<DimProduct>)
    requires Joinable(orders, customers, products)
    ensures var facts := FactOrders(orders, customers, products);
            && |facts| == |orders|
            && forall i | 0 <= i < |orders| ::
                 && facts[i].order == orders[i]
                 && Some(facts[i].customerKey) == orders[i].customerId
                 && Some(facts[i].productKey) == orders[i].productId
  {
    OrderLinesOneToOne(orders, customers, products);
  }

  /** What the refunds give back on an order; a line without an order id joins no refund. */
  function RefundedFor(order: Option<Id>, refunds: seq<StgRefund>): int {
    if order.None? then 0 else GroupSum(refunds, RefundOrder, order.value, RefundAmount)
  }

  /** Refunds that meet the documented contract never give back a negative amount. */
  lemma {:induction false} RefundedIsNotNegative(order: Option<Id>, refunds: seq<StgRefund>)
    requires forall i | 0 <= i < |refunds| :: 0 <= RefundAmount(refunds[i])
    ensures 0 <= RefundedFor(order, refunds)
  {
    if refunds != [] { RefundedIsNotNegative(order, refunds[..|refunds| - 1]); }
  }

  /** A refund at a negative price, which is routed and accepted, gives back a negative amount. */
  lemma NegativeRefundReachesSales(id: Id, order: Id, now: int)
    ensures var e := Sample(Some(Refund), now, Some(-5), Some(1)).(eventId := Some(id), orderId := Some(order));
            && Classify(e, now).None? && AsRefund(e).Some?
            && RefundedFor(Some(order), StgRefunds([(id, AsRefund(e).value)])) == -5
  {
    var e := Sample(Some(Refund), now, Some(-5), Some(1)).(eventId := Some(id), orderId := Some(order));
    var refunds := StgRefunds([(id, AsRefund(e).value)]);
    assert |refunds| == 1 && refunds[0] == StageRefund((id, AsRefund(e).value));
    assert RefundOrder(refunds[0]) == Some(order) && RefundAmount(refunds[0]) == -5;
    assert GroupSum(refunds[..0], RefundOrder, order, RefundAmount) == 0;
  }

  lemma {:induction false} NoRowsInGroup<T, K>(rows: seq<T>, key: T -> Option<K>, k: K, amount: T -> int)
    requires forall i | 0 <= i < |rows| :: key(rows[i]) != Some(k)
    ensures GroupSum(rows, key, k, amount) == 0
  {
    if rows != [] { NoRowsInGroup(rows[..|rows| - 1], key, k, amount); }
  }

  /** The refund totals join any lines one to one, each with what was refunded on its order. */
  lemma {:induction false} RefundsJoinOneToOne(
      lines: seq<((StgOrder, DimCustomer), DimProduct)>, refunds: seq<StgRefund>)
    ensures var joined := LeftJoin(lines, RefundTotals(refunds), LineRefunded);
            && |joined| == |lines|
            && forall i | 0 <= i < |lines| ::
                 joined[i].0 == lines[i] && SaleFactOf(joined[i]).refunded == RefundedFor(lines[i].0.0.orderId, refunds)
  {
    var totals := RefundTotals(refunds);
    forall i | 0 <= i < |lines| ensures AtMostOneMatch(lines[i], totals, LineRefunded) {}
    LeftJoinIsOneToOne(lines, totals, LineRefunded);
    var joined := LeftJoin(lines, totals, LineRefunded);
    forall i | 0 <= i < |lines|
      ensures joined[i].0 == lines[i] && SaleFactOf(joined[i]).refunded == RefundedFor(lines[i].0.0.orderId, refunds)
    {
      JoinedRefund(joined[i], refunds);
    }
  }

  /** fact_sales has exactly one row per order line, and its refunded amount is the sum of that order's refunds. */
  lemma FactSalesGrain(
      orders: seq<StgOrder>, customers: seq<DimCustomer>, products: seq<DimProduct>, refunds: seq<StgRefund>)
    requires Joinable(orders, customers, products)
    ensures var facts := FactSales(orders, customers, products, refunds);
            && |facts| == |orders|
            && forall i | 0 <= i < |orders| :: SaleOf(facts[i], orders[i], RefundedFor(orders[i].orderId, refunds))
  {
    OrderLinesOneToOne(orders, customers, products);
    RefundsJoinOneToOne(OrderLines(orders, customers, products), refunds);
    var joined := LeftJoin(OrderLines(orders, customers, products), RefundTotals(refunds), LineRefunded);
    forall i | 0 <= i < |orders|
      ensures SaleOf(SaleFactOf(joined[i]), orders[i], RefundedFor(orders[i].orderId, refunds))
    {
      assert joined[i].0.0.0 == orders[i];
      SaleRow(joined[i]);
    }
  }

  lemma SaleRow(x: (((StgOrder, DimCustomer), DimProduct), Option<RefundTotal>))
    requires Some(x.0.0.1.customerId) == x.0.0.0.customerId && Some(x.0.1.productId) == x.0.0.0.productId
    ensures SaleOf(SaleFactOf(x), x.0.0.0, SaleFactOf(x).refunded)
  {
  }

  // The row of one order line, with this much refunded.
  predicate SaleOf(s: SaleFact, o: StgOrder, refunded: int) {
    && s.saleKey == o.lineId && s.orderId == o.orderId && s.soldAt == o.orderedAt
    && Some(s.customerKey) == o.customerId && Some(s.productKey) == o.productId
    && s.quantity == o.quantity && s.unitPrice == o.unitPrice && s.gross == o.gross
    && s.refunded == refunded
    && s.net == if o.gross.None? then None else Some(o.gross.value - refunded)
  }

  lemma JoinedRefund(x: (((StgOrder, DimCustomer), DimProduct), Option<RefundTotal>), refunds: seq<StgRefund>)
    requires x.1.None? ==> !SomeMatch(x.0, RefundTotals(refunds), LineRefunded)
    requires x.1.Some? ==> x.1.value in RefundTotals(refunds) && LineRefunded(x.0, x.1.value)
    ensures SaleFactOf(x).refunded == RefundedFor(x.0.0.0.orderId, refunds)
  {
    var totals, ids := RefundTotals(refunds), GroupKeys(refunds, RefundOrder);
    var order := x.0.0.0.orderId;
    if order.Some? && x.1.None? {
      forall k | 0 <= k < |ids| ensures ids[k] != order.value {
        assert !LineRefunded(x.0, totals[k]);
      }
      NoRowsInGroup(refunds, RefundOrder, order.value, RefundAmount);
    }
  }

  // ---------------------------------------------------------------- revenue agrees everywhere

  lemma {:induction false} NoKeysOf<T, K>(rows: seq<T>, key: T -> Option<K>)
    requires forall i | 0 <= i < |rows| :: key(rows[i]).None?
    ensures KeySet(rows, key) == {}
  {
  }

  // What the order join contributes to one customer's row.
  lemma {:induction false} JoinedTotal(c: int, found: Option<OrderTotal>, orders: seq<StgOrder>)
    requires found.None? ==> !SomeMatch(c, OrderTotals(orders), SameCustomerTotal)
    requires found.Some? ==> found.value in OrderTotals(orders) && SameCustomerTotal(c, found.value)
    ensures (if found.None? then 0 else found.value.gross) == GroupSum(orders, OrderCustomer, c, OrderGross)
    ensures (if found.None? then 0 else found.value.orders) == |KeySet(orders, OrderIdOf(c))|
  {
    var totals, ids := OrderTotals(orders), GroupKeys(orders, OrderCustomer);
    if found.None? {
      forall k | 0 <= k < |ids| ensures ids[k] != c {
        assert !SameCustomerTotal(c, totals[k]);
      }
      NoRowsInGroup(orders, OrderCustomer, c, OrderGross);
      NoKeysOf(orders, OrderIdOf(c));
    } else {
      DistinctKeysCounted(orders, OrderIdOf(c));
    }
  }

  // What the session join contributes to it.
  lemma {:induction false} JoinedSessions(c: int, found: Option<SessionTotal>, events: seq<(Id, BronzeRow)>)
    requires found.None? ==> forall k | 0 <= k < |SessionTotals(events)| :: SessionTotals(events)[k].customerId != c
    requires found.Some? ==> found.value in SessionTotals(events) && found.value.customerId == c
    ensures (if found.None? then 0 else found.value.sessions) == |KeySet(events, SessionIdOf(c))|
  {
    var totals, ids := SessionTotals(events), GroupKeys(events, EventCustomer);
    if found.None? {
      forall k | 0 <= k < |ids| ensures ids[k] != c {
        assert totals[k].customerId != c;
      }
      NoKeysOf(events, SessionIdOf(c));
    } else {
      DistinctKeysCounted(events, SessionIdOf(c));
    }
  }

  /** The row of one customer: the gross of its orders, and its distinct orders and sessions. */
  predicate MetricsOf(m: DimCustomer, c: int, orders: seq<StgOrder>, events: seq<(Id, BronzeRow)>) {
    && m.customerId == c
    && m.lifetimeGross == GroupSum(orders, OrderCustomer, c, OrderGross)
    && m.lifetimeOrders == |KeySet(orders, OrderIdOf(c))|
    && m.lifetimeSessions == |KeySet(events, SessionIdOf(c))|
  }

  // Both joins find at most one row for each customer.
  lemma {:induction false} MetricJoins(customers: seq<int>, orders: seq<StgOrder>, events: seq<(Id, BronzeRow)>)
    ensures var first := LeftJoin(customers, OrderTotals(orders), SameCustomerTotal);
            var joined := LeftJoin(first, SessionTotals(events), SameCustomerSessions);
            && |joined| == |first| == |customers|
            && forall i | 0 <= i < |customers| ::
                 && joined[i].0 == first[i] && first[i].0 == customers[i]
                 && (first[i].1.None? <==> !SomeMatch(customers[i], OrderTotals(orders), SameCustomerTotal))
                 && (first[i].1.Some? ==>
                       first[i].1.value in OrderTotals(orders) && SameCustomerTotal(customers[i], first[i].1.value))
                 && (joined[i].1.None? <==> !SomeMatch(first[i], SessionTotals(events), SameCustomerSessions))
                 && (joined[i].1.Some? ==>
                       joined[i].1.value in SessionTotals(events) && SameCustomerSessions(first[i], joined[i].1.value))
  {
    LeftJoinIsOneToOne(customers, OrderTotals(orders), SameCustomerTotal);
    var first := LeftJoin(customers, OrderTotals(orders), SameCustomerTotal);
    LeftJoinIsOneToOne(first, SessionTotals(events), SameCustomerSessions);
  }

  /** customer_metrics has one row per customer, with that customer's gross and its distinct orders and sessions. */
  lemma {:induction false} CustomerMetricsGrain(
      customers: seq<int>, orders: seq<StgOrder>, events: seq<(Id, BronzeRow)>)
    ensures |CustomerMetrics(customers, orders, events)| == |customers|
    ensures forall i | 0 <= i < |customers| ::
              MetricsOf(CustomerMetrics(customers, orders, events)[i], customers[i], orders, events)
  {
    MetricJoins(customers, orders, events);
    var first := LeftJoin(customers, OrderTotals(orders), SameCustomerTotal);
    var joined := LeftJoin(first, SessionTotals(events), SameCustomerSessions);
    forall i | 0 <= i < |customers| ensures MetricsOf(MetricRow(joined[i]), customers[i], orders, events) {
      JoinedTotal(customers[i], first[i].1, orders);
      if joined[i].1.None? {
        forall k | 0 <= k < |SessionTotals(events)| ensures SessionTotals(events)[k].customerId != customers[i] {
          assert !SameCustomerSessions(first[i], SessionTotals(events)[k]);
        }
      }
      JoinedSessions(customers[i], joined[i].1, events);
    }
  }

  /** With no duplicate customer, and every order's customer listed, lifetime revenue totals the order lines. */
  lemma {:induction false} LifetimeGrossTotalsOrders(
      customers: seq<int>, orders: seq<StgOrder>, events: seq<(Id, BronzeRow)>)
    requires NoDuplicates(customers)
    requires forall i | 0 <= i < |orders| :: orders[i].customerId.Some? && orders[i].customerId.value in customers
    ensures Sum(CustomerMetrics(customers, orders, events), CustomerGross) == Sum(orders, OrderGross)
  {
    CustomerMetricsGrain(customers, orders, events);
    var metrics := CustomerMetrics(customers, orders, events);
    TableOfGroupSums(orders, OrderCustomer, customers, OrderGross, metrics, CustomerGross);
    GroupSumsAddUp(orders, OrderCustomer, customers, OrderGross, OrderGross);
  }

  /** With one row per product, the per-day and per-product revenue totals the order lines, matched or not. */
  lemma {:induction false} SalesMetricsTotalOrders(orders: seq<StgOrder>, products: seq<DimProduct>)
    requires UniqueKeys(products, ProductKey)
    ensures Sum(SalesMetrics(orders, products), MetricGross) == Sum(orders, OrderGross)
  {
    forall i | 0 <= i < |orders| ensures AtMostOneMatch(orders[i], products, OrderedProduct) {
      forall j, k | 0 <= j < |products| && 0 <= k < |products|
                    && OrderedProduct(orders[i], products[j]) && OrderedProduct(orders[i], products[k])
        ensures j == k
      {
        assert ProductKey(products[j]) == ProductKey(products[k]);
      }
    }
    LeftJoinIsOneToOne(orders, products, OrderedProduct);
    var joined := LeftJoin(orders, products, OrderedProduct);
    var keys := GroupKeys(joined, SalesGroup);
    TableOfGroupSums(joined, SalesGroup, keys, JoinedGross, SalesMetrics(orders, products), MetricGross);
    GroupSumsAddUp(joined, SalesGroup, keys, JoinedGross, JoinedGross);
    SumAlike(joined, JoinedGross, orders, OrderGross);
  }

  lemma {:induction false} SalesTotalOrders(
      orders: seq<StgOrder>, customers: seq<DimCustomer>, products: seq<DimProduct>, refunds: seq<StgRefund>)
    requires Joinable(orders, customers, products)
    ensures Sum(FactSales(orders, customers, products, refunds), SaleGross) == Sum(orders, OrderGross)
  {
    FactSalesGrain(orders, customers, products, refunds);
    var facts := FactSales(orders, customers, products, refunds);
    forall i | 0 <= i < |facts| ensures SaleGross(facts[i]) == OrderGross(orders[i]) {
      assert SaleOf(facts[i], orders[i], RefundedFor(orders[i].orderId, refunds));
    }
    SumAlike(facts, SaleGross, orders, OrderGross);
  }

  // ---------------------------------------------------------------- counts and latest values

  function One(r: (Id, BronzeRow)): int { 1 }

  function OnePurchase(r: (Id, BronzeRow)): int { if Is(r.1.event, Purchase) then 1 else 0 }

  function InSession(r: (Id, BronzeRow)): int { if r.1.event.sessionId.Some? then 1 else 0 }

  function PurchaseInSession(r: (Id, BronzeRow)): int { if r.1.event.sessionId.Some? then OnePurchase(r) else 0 }

  function InCountry(r: (Id, BronzeRow)): int { if r.1.event.country.Some? then 1 else 0 }

  function SessionEvents(f: SessionFact): int { f.events }

  function SessionPurchases(f: SessionFact): int { f.purchases }

  function CountryEvents(c: DimCountry): int { c.events }

  lemma {:induction false} CountsAreGroupSums(events: seq<(Id, BronzeRow)>, group: (Id, Option<int>))
    ensures CountIn(events, group, None) == GroupSum(events, SessionGroup, group, One)
    ensures CountIn(events, group, Some(Purchase)) == GroupSum(events, SessionGroup, group, OnePurchase)
  {
    if events != [] { CountsAreGroupSums(events[..|events| - 1], group); }
  }

  /** The sessions share the events that have one among them: none is counted twice, and none is left out. */
  lemma {:induction false} SessionCountsAddUp(events: seq<(Id, BronzeRow)>)
    ensures Sum(FactSessions(events), SessionEvents) == Sum(events, InSession)
    ensures Sum(FactSessions(events), SessionPurchases) == Sum(events, PurchaseInSession)
  {
    var facts, keys := FactSessions(events), GroupKeys(events, SessionGroup);
    forall i | 0 <= i < |keys|
      ensures SessionEvents(facts[i]) == GroupSum(events, SessionGroup, keys[i], One)
      ensures SessionPurchases(facts[i]) == GroupSum(events, SessionGroup, keys[i], OnePurchase)
    {
      CountsAreGroupSums(events, keys[i]);
    }
    TableOfGroupSums(events, SessionGroup, keys, One, facts, SessionEvents);
    TableOfGroupSums(events, SessionGroup, keys, OnePurchase, facts, SessionPurchases);
    GroupSumsAddUp(events, SessionGroup, keys, One, InSession);
    GroupSumsAddUp(events, SessionGroup, keys, OnePurchase, PurchaseInSession);
  }

  lemma {:induction false} CountryCountIsGroupSum(events: seq<(Id, BronzeRow)>, country: string)
    ensures CountCountry(events, country) == GroupSum(events, EventCountry, country, One)
  {
    if events != [] { CountryCountIsGroupSum(events[..|events| - 1], country); }
  }

  /** The countries share the events that name one among them. */
  lemma {:induction false} CountryCountsAddUp(events: seq<(Id, BronzeRow)>)
    ensures Sum(DimCountries(events), CountryEvents) == Sum(events, InCountry)
  {
    var rows, keys := DimCountries(events), GroupKeys(events, EventCountry);
    forall i | 0 <= i < |keys| ensures CountryEvents(rows[i]) == GroupSum(events, EventCountry, keys[i], One) {
      CountryCountIsGroupSum(events, keys[i]);
    }
    TableOfGroupSums(events, EventCountry, keys, One, rows, CountryEvents);
    GroupSumsAddUp(events, EventCountry, keys, One, InCountry);
  }

  /** A product's category comes from one of its rows, and no timed row of the product is later. */
  lemma {:induction false} LatestIsLatest(scan: seq<(Id, ProductRow)>, product: int)
    ensures LatestOf(scan, product).Some? <==> exists i :: 0 <= i < |scan| && scan[i].1.productId == product
    ensures LatestOf(scan, product).Some? ==>
              exists i :: 0 <= i < |scan| && scan[i].1.productId == product
                          && scan[i].1 == LatestOf(scan, product).value
    ensures forall i | 0 <= i < |scan| && scan[i].1.productId == product && scan[i].1.at.Some? ::
              NotOlder(LatestOf(scan, product).value.at, scan[i].1.at)
  {
    if scan != [] {
      var n := |scan| - 1;
      LatestIsLatest(scan[..n], product);
      assert forall i | 0 <= i < n :: scan[..n][i] == scan[i];
      assert scan[n].1.productId == product ==> LatestOf(scan, product).Some?;
    }
  }
}
