/** Every row of every Gold model, told by the Silver tables alone: money, counts, dates and latest values. */
module GoldRows {
  import opened Options
  import opened Contracts
  import opened Silver
  import opened SilverReplay
  import opened Relational
  import opened DeltaMerge
  import opened Gold
  import opened GoldFacts
  import opened GoldViews

  // ---------------------------------------------------------------- sums and counts over a stored table

  lemma {:induction false} GroupIsSum<T, U, K>(
      rows: seq<T>, key: T -> Option<K>, k: K, amount: T -> int, others: seq<U>, weight: U -> int)
    requires |rows| == |others|
    requires forall i | 0 <= i < |rows| ::
               weight(others[i]) == if key(rows[i]) == Some(k) then amount(rows[i]) else 0
    ensures GroupSum(rows, key, k, amount) == Sum(others, weight)
  {
    if rows != [] {
      GroupIsSum(rows[..|rows| - 1], key, k, amount, others[..|others| - 1], weight);
    }
  }

  /** Counting the rows of a scan is counting the keys of the table. */
  lemma {:induction false} CountedOnce<K, V>(rows: seq<(K, V)>, table: map<K, V>, weight: ((K, V)) -> int)
    requires IsScan(rows, table) && forall i | 0 <= i < |rows| :: weight(rows[i]) == 0 || weight(rows[i]) == 1
    ensures Sum(rows, weight) == |set k | k in table && weight((k, table[k])) == 1|
  {
    var counted := set k | k in table && weight((k, table[k])) == 1;
    if rows == [] {
      assert counted == {};
    } else {
      var n := |rows| - 1;
      LastOfScan(rows, table);
      CountedOnce(rows[..n], table - {rows[n].0}, weight);
      CountedWith(table, rows[n].0, weight);
    }
  }

  lemma CountedWith<K, V>(table: map<K, V>, last: K, weight: ((K, V)) -> int)
    requires last in table && (weight((last, table[last])) == 0 || weight((last, table[last])) == 1)
    ensures |set k | k in table && weight((k, table[k])) == 1| ==
            |set k | k in table - {last} && weight((k, (table - {last})[k])) == 1| + weight((last, table[last]))
  {
    var counted := set k | k in table && weight((k, table[k])) == 1;
    var before := set k | k in table - {last} && weight((k, (table - {last})[k])) == 1;
    assert counted == before + if weight((last, table[last])) == 1 then {last} else {};
  }

  lemma LastOfScan<K, V>(rows: seq<(K, V)>, table: map<K, V>)
    requires IsScan(rows, table) && rows != []
    ensures IsScan(rows[..|rows| - 1], table - {rows[|rows| - 1].0})
  {
    var n := |rows| - 1;
    var rest := table - {rows[n].0};
    forall k | k in rest ensures exists i :: 0 <= i < n && rows[..n][i].0 == k {
      var i :| 0 <= i < |rows| && rows[i].0 == k;
      assert rows[..n][i].0 == k;
    }
  }

  // ---------------------------------------------------------------- order lines and their money

  // The amount is the product of both, and is missing while either is.
  predicate IsProduct(amount: Option<int>, quantity: Option<int>, price: Option<int>) {
    if quantity.Some? && price.Some? then amount == Some(quantity.value * price.value) else amount.None?
  }

  predicate IsDay(date: Option<int>, at: Option<int>) {
    if at.Some? then date == Some(at.value / 86_400_000) else date.None?
  }

  /** A row of fact_orders shows its row of silver.orders, the amount being quantity times price. */
  predicate OrderFactShows(f: OrderFact, o: OrderRow) {
    && f.order.orderId == o.orderId && f.order.customerId == o.customerId && f.order.productId == o.productId
    && f.order.orderedAt == o.orderedAt && f.order.quantity == o.quantity && f.order.unitPrice == o.price
    && f.order.country == o.country && f.order.attributes == o.attributes
    && IsProduct(f.order.gross, o.quantity, o.price)
    && Some(f.customerKey) == o.customerId && Some(f.productKey) == o.productId
    && IsDay(f.date, o.orderedAt)
  }

  lemma OrderFactsShow(t: Tables, i: nat)
    requires Projected(t) && i < |OrderFactsOf(t)|
    ensures var f := OrderFactsOf(t)[i];
            OrderKey(f) in t.orders && OrderFactShows(f, t.orders[OrderKey(f)])
  {
    SilverIsJoinable(t);
    FactOrdersGrain(OrdersOf(t), CustomersOf(t), ProductsOf(t));
    OrderDates(OrdersOf(t), CustomersOf(t), ProductsOf(t), i);
    StagedFrom(t, i);
  }

  lemma StagedFrom(t: Tables, i: nat)
    requires i < |OrdersOf(t)|
    ensures var o := OrdersOf(t)[i];
            && o.lineId in t.orders
            && var row := t.orders[o.lineId];
               && o == StgOrder(o.lineId, row.orderId, row.customerId, row.productId, row.orderedAt,
                                row.quantity, row.price, o.gross, row.country, row.attributes)
               && IsProduct(o.gross, row.quantity, row.price)
               && row == Scan(t.orders)[i].1
  {
    var row := Scan(t.orders)[i];
    assert row.0 in t.orders && t.orders[row.0] == row.1;
  }

  lemma OrderDates(orders: seq<StgOrder>, customers: seq<DimCustomer>, products: seq<DimProduct>, i: nat)
    requires i < |FactOrders(orders, customers, products)|
    ensures var f := FactOrders(orders, customers, products)[i]; IsDay(f.date, f.order.orderedAt)
  {
  }

  /** A staged refund shows its row of silver.refunds, the amount being quantity times price. */
  lemma RefundsShow(t: Tables, i: nat)
    requires i < |RefundsOf(t)|
    ensures var r := RefundsOf(t)[i];
            && r.lineId in t.refunds
            && var row := t.refunds[r.lineId];
               && r.refundId == row.refundId && r.orderId == row.orderId
               && IsProduct(r.amount, row.quantity, row.price)
  {
    var row := Scan(t.refunds)[i];
    assert row.0 in t.refunds && t.refunds[row.0] == row.1;
  }

  // What a row of silver.refunds gives back on an order.
  function GivenBack(order: Option<Id>): ((Id, RefundRow)) -> int {
    (r: (Id, RefundRow)) =>
      if order.Some? && r.1.orderId == order && r.1.quantity.Some? && r.1.price.Some?
      then r.1.quantity.value * r.1.price.value else 0
  }

  lemma {:induction false} RefundedFromRows(t: Tables, order: Option<Id>)
    ensures RefundedFor(order, RefundsOf(t)) == Sum(Scan(t.refunds), GivenBack(order))
  {
    var rows, refunds := Scan(t.refunds), RefundsOf(t);
    if order.None? {
      NothingGiven(rows);
    } else {
      GroupIsSum(refunds, RefundOrder, order.value, RefundAmount, rows, GivenBack(order));
    }
  }

  lemma {:induction false} NothingGiven(rows: seq<(Id, RefundRow)>)
    ensures Sum(rows, GivenBack(None)) == 0
  {
    if rows != [] { NothingGiven(rows[..|rows| - 1]); }
  }

  /** A row of fact_sales shows its order row, less what the rows of silver.refunds give back on its order. */
  ghost predicate SaleShows(s: SaleFact, o: OrderRow, t: Tables) {
    && s.orderId == o.orderId && Some(s.customerKey) == o.customerId && Some(s.productKey) == o.productId
    && s.soldAt == o.orderedAt && s.quantity == o.quantity && s.unitPrice == o.price
    && IsProduct(s.gross, o.quantity, o.price)
    && s.refunded == Sum(Scan(t.refunds), GivenBack(o.orderId))
    && (if s.gross.Some? then s.net == Some(s.gross.value - s.refunded) else s.net.None?)
  }

  lemma SalesShow(t: Tables, i: nat)
    requires Projected(t) && i < |SalesOf(t)|
    ensures var s := SalesOf(t)[i]; SaleKey(s) in t.orders && SaleShows(s, t.orders[SaleKey(s)], t)
  {
    SaleLines(t);
    StagedFrom(t, i);
    var o := OrdersOf(t)[i];
    RefundedFromRows(t, o.orderId);
    SaleFromStaged(t, SalesOf(t)[i], o, t.orders[o.lineId]);
  }

  lemma SaleFromStaged(t: Tables, s: SaleFact, o: StgOrder, row: OrderRow)
    requires SaleOf(s, o, Sum(Scan(t.refunds), GivenBack(o.orderId)))
    requires o == StgOrder(o.lineId, row.orderId, row.customerId, row.productId, row.orderedAt,
                           row.quantity, row.price, o.gross, row.country, row.attributes)
    requires IsProduct(o.gross, row.quantity, row.price)
    ensures SaleShows(s, row, t)
  {
  }

  // ---------------------------------------------------------------- customers

  function Spent(customer: int): ((Id, OrderRow)) -> int {
    (r: (Id, OrderRow)) => if r.1.customerId == Some(customer) then Worth(r) else 0
  }

  /** A row of dim_customer: what the customer's orders are worth, and its distinct orders and sessions. */
  ghost predicate CustomerShowsTotals(c: DimCustomer, t: Tables) {
    && c.lifetimeGross == Sum(Scan(t.orders), Spent(c.customerId))
    && c.lifetimeOrders == |set id | id in t.orders && t.orders[id].customerId == Some(c.customerId)
                                     && t.orders[id].orderId.Some? :: t.orders[id].orderId.value|
    && c.lifetimeSessions == |set id | id in t.events && t.events[id].event.userId == Some(c.customerId)
                                       && t.events[id].event.sessionId.Some? :: t.events[id].event.sessionId.value|
  }

  lemma CustomersShow(t: Tables, i: nat)
    requires i < |CustomersOf(t)|
    ensures CustomerShowsTotals(CustomersOf(t)[i], t)
  {
    CustomerMetricsGrain(ListedCustomers(t), OrdersOf(t), EventsOf(t));
    var c := ListedCustomers(t)[i];
    SpentFromRows(t, c);
    OrdersCounted(t, c);
    SessionsCounted(t, c);
  }

  lemma {:induction false} SpentFromRows(t: Tables, c: int)
    ensures GroupSum(OrdersOf(t), OrderCustomer, c, OrderGross) == Sum(Scan(t.orders), Spent(c))
  {
    GroupIsSum(OrdersOf(t), OrderCustomer, c, OrderGross, Scan(t.orders), Spent(c));
  }

  lemma {:induction false} OrdersCounted(t: Tables, c: int)
    ensures KeySet(OrdersOf(t), OrderIdOf(c)) ==
            set id | id in t.orders && t.orders[id].customerId == Some(c)
                     && t.orders[id].orderId.Some? :: t.orders[id].orderId.value
  {
    var keys := KeySet(OrdersOf(t), OrderIdOf(c));
    var ids := set id | id in t.orders && t.orders[id].customerId == Some(c)
                        && t.orders[id].orderId.Some? :: t.orders[id].orderId.value;
    forall k ensures k in keys <==> k in ids {
      if k in keys {
        var i :| 0 <= i < |OrdersOf(t)| && OrderIdOf(c)(OrdersOf(t)[i]) == Some(k);
        StagedFrom(t, i);
      }
      if k in ids {
        var id :| id in t.orders && t.orders[id].customerId == Some(c) && t.orders[id].orderId == Some(k);
        var i := ScanHas(Scan(t.orders), t.orders, id);
        assert OrderIdOf(c)(OrdersOf(t)[i]) == Some(k);
      }
    }
  }

  lemma {:induction false} SessionsCounted(t: Tables, c: int)
    ensures KeySet(EventsOf(t), SessionIdOf(c)) ==
            set id | id in t.events && t.events[id].event.userId == Some(c)
                     && t.events[id].event.sessionId.Some? :: t.events[id].event.sessionId.value
  {
    var keys := KeySet(EventsOf(t), SessionIdOf(c));
    var ids := set id | id in t.events && t.events[id].event.userId == Some(c)
                        && t.events[id].event.sessionId.Some? :: t.events[id].event.sessionId.value;
    forall k ensures k in keys <==> k in ids {
      if k in keys {
        var i :| 0 <= i < |EventsOf(t)| && SessionIdOf(c)(EventsOf(t)[i]) == Some(k);
        assert EventsOf(t)[i].0 in t.events;
      }
      if k in ids {
        var id :| id in t.events && t.events[id].event.userId == Some(c) && t.events[id].event.sessionId == Some(k);
        var i := ScanHas(EventsOf(t), t.events, id);
        assert SessionIdOf(c)(EventsOf(t)[i]) == Some(k);
      }
    }
  }

  // ---------------------------------------------------------------- products

  /** A row of dim_product shows a row of the product's activity than which none with a time is later. */
  ghost predicate ProductShowsLatest(p: DimProduct, t: Tables) {
    exists id | id in t.products ::
      && t.products[id].productId == p.productId
      && p.category == t.products[id].category && p.price == t.products[id].price
      && forall other | other in t.products && t.products[other].productId == p.productId
                        && t.products[other].at.Some? ::
           t.products[id].at.Some? && t.products[other].at.value <= t.products[id].at.value
  }

  lemma ProductsShow(t: Tables, i: nat)
    requires i < |ProductsOf(t)|
    ensures ProductShowsLatest(ProductsOf(t)[i], t)
  {
    var rows, product := Scan(t.products), ProductsOf(t)[i].productId;
    LatestIsLatest(rows, product);
    var ids := GroupKeys(rows, ActiveProduct);
    assert product in ids;
    var k :| 0 <= k < |rows| && ActiveProduct(rows[k]) == Some(product);
    var j :| 0 <= j < |rows| && rows[j].1.productId == product && rows[j].1 == LatestOf(rows, product).value;
    var id := rows[j].0;
    assert id in t.products && t.products[id] == rows[j].1;
    forall other | other in t.products && t.products[other].productId == product && t.products[other].at.Some?
      ensures t.products[id].at.Some? && t.products[other].at.value <= t.products[id].at.value
    {
      var m := ScanHas(rows, t.products, other);
      assert NotOlder(rows[j].1.at, rows[m].1.at);
    }
  }

  // ---------------------------------------------------------------- sessions and countries

  function CountsSession(f: SessionFact, kind: Option<EventType>): ((Id, BronzeRow)) -> int {
    (r: (Id, BronzeRow)) =>
      if r.1.event.sessionId == Some(f.sessionId) && r.1.event.userId == f.customerId
         && (kind.None? || r.1.event.eventType == kind) then 1 else 0
  }

  /** A row of fact_sessions counts the events, and the purchases, of its session and customer. */
  ghost predicate SessionShowsCounts(f: SessionFact, t: Tables) {
    && f.events == |set id | id in t.events && t.events[id].event.sessionId == Some(f.sessionId)
                             && t.events[id].event.userId == f.customerId|
    && f.purchases == |set id | id in t.events && t.events[id].event.sessionId == Some(f.sessionId)
                                && t.events[id].event.userId == f.customerId
                                && t.events[id].event.eventType == Some(Purchase)|
  }

  lemma SessionsShow(t: Tables, i: nat)
    requires i < |SessionsOf(t)|
    ensures SessionShowsCounts(SessionsOf(t)[i], t)
  {
    SessionEventsCounted(t, SessionsOf(t)[i]);
    SessionPurchasesCounted(t, SessionsOf(t)[i]);
  }

  lemma {:induction false} SessionEventsCounted(t: Tables, f: SessionFact)
    ensures CountIn(EventsOf(t), (f.sessionId, f.customerId), None) ==
            |set id | id in t.events && t.events[id].event.sessionId == Some(f.sessionId)
                      && t.events[id].event.userId == f.customerId|
  {
    var rows, group := EventsOf(t), (f.sessionId, f.customerId);
    CountsAreGroupSums(rows, group);
    GroupIsSum(rows, SessionGroup, group, One, rows, CountsSession(f, None));
    CountedOnce(rows, t.events, CountsSession(f, None));
    assert (set id | id in t.events && CountsSession(f, None)((id, t.events[id])) == 1)
        == set id | id in t.events && t.events[id].event.sessionId == Some(f.sessionId)
                    && t.events[id].event.userId == f.customerId;
  }

  lemma {:induction false} SessionPurchasesCounted(t: Tables, f: SessionFact)
    ensures CountIn(EventsOf(t), (f.sessionId, f.customerId), Some(Purchase)) ==
            |set id | id in t.events && t.events[id].event.sessionId == Some(f.sessionId)
                      && t.events[id].event.userId == f.customerId && t.events[id].event.eventType == Some(Purchase)|
  {
    var rows, group := EventsOf(t), (f.sessionId, f.customerId);
    CountsAreGroupSums(rows, group);
    GroupIsSum(rows, SessionGroup, group, OnePurchase, rows, CountsSession(f, Some(Purchase)));
    CountedOnce(rows, t.events, CountsSession(f, Some(Purchase)));
    assert (set id | id in t.events && CountsSession(f, Some(Purchase))((id, t.events[id])) == 1)
        == set id | id in t.events && t.events[id].event.sessionId == Some(f.sessionId)
                    && t.events[id].event.userId == f.customerId && t.events[id].event.eventType == Some(Purchase);
  }

  function CountsCountry(country: string): ((Id, BronzeRow)) -> int {
    (r: (Id, BronzeRow)) => if r.1.event.country == Some(country) then 1 else 0
  }

  /** A row of dim_country counts the events that name the country. */
  lemma {:induction false} CountriesShow(t: Tables, i: nat)
    requires i < |CountriesOf(t)|
    ensures var c := CountriesOf(t)[i];
            c.events == |set id | id in t.events && t.events[id].event.country == Some(c.country)|
  {
    var c, rows := CountriesOf(t)[i], EventsOf(t);
    CountryCountIsGroupSum(rows, c.country);
    GroupIsSum(rows, EventCountry, c.country, One, rows, CountsCountry(c.country));
    CountedOnce(rows, t.events, CountsCountry(c.country));
    assert (set id | id in t.events && CountsCountry(c.country)((id, t.events[id])) == 1)
        == set id | id in t.events && t.events[id].event.country == Some(c.country);
  }

  // ---------------------------------------------------------------- inventory

  /** A row of fact_inventory shows its inventory update. */
  lemma {:induction false} InventoryFactsShow(t: Tables, i: nat)
    requires i < |InventoryOf(t)|
    ensures var f := InventoryOf(t)[i];
            && f.lineId in t.inventory
            && var row := t.inventory[f.lineId];
               Some(f.productKey) == row.productId && f.at == row.at && f.attributes == row.attributes
  {
    InnerJoinRows(Scan(t.inventory), ProductsOf(t), StockedProduct);
    var x := InnerJoin(Scan(t.inventory), ProductsOf(t), StockedProduct)[i];
    assert IsJoined(x, Scan(t.inventory), ProductsOf(t), StockedProduct);
  }

  // ---------------------------------------------------------------- sales metrics

  ghost function MetricsOf(t: Tables): seq<SalesMetric> { SalesMetrics(OrdersOf(t), ProductsOf(t)) }

  // The category is that of the product's row, and missing when there is none.
  ghost predicate IsCategory(t: Tables, product: Option<int>, category: Option<string>) {
    if product.Some? && HasKey(ProductsOf(t), ProductKey, product.value) then
      exists i :: 0 <= i < |ProductsOf(t)| && ProductsOf(t)[i].productId == product.value
                  && ProductsOf(t)[i].category == category
    else category.None?
  }

  /** The order row belongs to this day, category and product. */
  ghost predicate SoldIn(t: Tables, o: OrderRow, m: SalesMetric) {
    IsDay(m.date, o.orderedAt) && m.productId == o.productId && IsCategory(t, o.productId, m.category)
  }

  ghost function WorthIn(t: Tables, m: SalesMetric): ((Id, OrderRow)) -> int {
    (r: (Id, OrderRow)) => if SoldIn(t, r.1, m) then Worth(r) else 0
  }

  ghost function UnitsIn(t: Tables, m: SalesMetric): ((Id, OrderRow)) -> int {
    (r: (Id, OrderRow)) => if SoldIn(t, r.1, m) && r.1.quantity.Some? then r.1.quantity.value else 0
  }

  /** A row of sales_metrics totals the worth, the units and the distinct orders of its day, category and product. */
  ghost predicate MetricShows(t: Tables, m: SalesMetric) {
    && m.gross == Sum(Scan(t.orders), WorthIn(t, m))
    && m.units == Sum(Scan(t.orders), UnitsIn(t, m))
    && m.orders == |set id | id in t.orders && SoldIn(t, t.orders[id], m)
                             && t.orders[id].orderId.Some? :: t.orders[id].orderId.value|
  }

  lemma SalesJoin(t: Tables)
    ensures var joined := LeftJoin(OrdersOf(t), ProductsOf(t), OrderedProduct);
            && |joined| == |OrdersOf(t)|
            && forall i | 0 <= i < |joined| ::
                 KeptWith(joined[i], OrdersOf(t)[i], ProductsOf(t), OrderedProduct)
  {
    ProductKeys(t, 0);
    forall i | 0 <= i < |OrdersOf(t)| ensures AtMostOneMatch(OrdersOf(t)[i], ProductsOf(t), OrderedProduct) {
      forall j, k | 0 <= j < |ProductsOf(t)| && 0 <= k < |ProductsOf(t)|
                    && OrderedProduct(OrdersOf(t)[i], ProductsOf(t)[j])
                    && OrderedProduct(OrdersOf(t)[i], ProductsOf(t)[k])
        ensures j == k
      {
        assert ProductKey(ProductsOf(t)[j]) == ProductKey(ProductsOf(t)[k]);
      }
    }
    LeftJoinIsOneToOne(OrdersOf(t), ProductsOf(t), OrderedProduct);
  }

  // The joined row is in the group exactly when its order row is sold in it.
  lemma JoinedGroup(t: Tables, x: (StgOrder, Option<DimProduct>), i: nat, m: SalesMetric)
    requires i < |OrdersOf(t)| && KeptWith(x, OrdersOf(t)[i], ProductsOf(t), OrderedProduct)
    ensures SalesGroup(x) == Some((m.date, m.category, m.productId)) <==> SoldIn(t, Scan(t.orders)[i].1, m)
  {
    var o := OrdersOf(t)[i];
    StagedFrom(t, i);
    JoinedCategory(t, x, o, m.category);
  }

  lemma JoinedCategory(t: Tables, x: (StgOrder, Option<DimProduct>), o: StgOrder, category: Option<string>)
    requires KeptWith(x, o, ProductsOf(t), OrderedProduct)
    ensures IsCategory(t, o.productId, category) <==>
            category == if x.1.None? then None else x.1.value.category
  {
    var products := ProductsOf(t);
    ProductKeys(t, 0);
    if x.1.Some? {
      var k :| 0 <= k < |products| && products[k] == x.1.value;
      assert ProductKey(products[k]) == o.productId.value;
      forall j | 0 <= j < |products| && products[j].productId == o.productId.value ensures j == k {
        assert ProductKey(products[j]) == ProductKey(products[k]);
      }
    }
  }

  // The joined rows are the order rows, each in the group exactly when it is sold in it.
  ghost predicate JoinedFor(t: Tables, m: SalesMetric, joined: seq<(StgOrder, Option<DimProduct>)>) {
    && |joined| == |OrdersOf(t)|
    && forall j | 0 <= j < |joined| ::
         && joined[j].0 == OrdersOf(t)[j]
         && (SalesGroup(joined[j]) == Some((m.date, m.category, m.productId)) <==>
               SoldIn(t, Scan(t.orders)[j].1, m))
  }

  lemma JoinedRows(t: Tables, m: SalesMetric)
    ensures JoinedFor(t, m, LeftJoin(OrdersOf(t), ProductsOf(t), OrderedProduct))
  {
    var joined := LeftJoin(OrdersOf(t), ProductsOf(t), OrderedProduct);
    SalesJoin(t);
    forall j | 0 <= j < |joined|
      ensures SalesGroup(joined[j]) == Some((m.date, m.category, m.productId)) <==> SoldIn(t, Scan(t.orders)[j].1, m)
    {
      JoinedGroup(t, joined[j], j, m);
    }
  }

  lemma {:induction false} MetricSums(t: Tables, m: SalesMetric, joined: seq<(StgOrder, Option<DimProduct>)>)
    requires JoinedFor(t, m, joined)
    ensures var key := (m.date, m.category, m.productId);
            && GroupSum(joined, SalesGroup, key, JoinedGross) == Sum(Scan(t.orders), WorthIn(t, m))
            && GroupSum(joined, SalesGroup, key, JoinedUnits) == Sum(Scan(t.orders), UnitsIn(t, m))
  {
    var key := (m.date, m.category, m.productId);
    GroupIsSum(joined, SalesGroup, key, JoinedGross, Scan(t.orders), WorthIn(t, m));
    GroupIsSum(joined, SalesGroup, key, JoinedUnits, Scan(t.orders), UnitsIn(t, m));
  }

  lemma {:induction false} MetricOrders(t: Tables, m: SalesMetric, joined: seq<(StgOrder, Option<DimProduct>)>)
    requires JoinedFor(t, m, joined)
    ensures |GroupKeys(joined, JoinedOrder((m.date, m.category, m.productId)))| ==
            |set id | id in t.orders && SoldIn(t, t.orders[id], m)
                      && t.orders[id].orderId.Some? :: t.orders[id].orderId.value|
  {
    var of := JoinedOrder((m.date, m.category, m.productId));
    DistinctKeysCounted(joined, of);
    var keys := KeySet(joined, of);
    var ids := set id | id in t.orders && SoldIn(t, t.orders[id], m)
                        && t.orders[id].orderId.Some? :: t.orders[id].orderId.value;
    forall k ensures k in keys <==> k in ids {
      if k in keys {
        var j :| 0 <= j < |joined| && of(joined[j]) == Some(k);
        StagedFrom(t, j);
      }
      if k in ids {
        var id :| id in t.orders && SoldIn(t, t.orders[id], m) && t.orders[id].orderId == Some(k);
        var j := ScanHas(Scan(t.orders), t.orders, id);
        assert of(joined[j]) == Some(k);
      }
    }
    assert keys == ids;
  }

  lemma MetricsShow(t: Tables, i: nat)
    requires i < |MetricsOf(t)|
    ensures MetricShows(t, MetricsOf(t)[i])
  {
    var joined := LeftJoin(OrdersOf(t), ProductsOf(t), OrderedProduct);
    JoinedRows(t, MetricsOf(t)[i]);
    MetricSums(t, MetricsOf(t)[i], joined);
    MetricOrders(t, MetricsOf(t)[i], joined);
  }

  /** Each order row belongs to exactly one row of sales_metrics. */
  lemma {:induction false} EveryOrderIsMeasured(t: Tables, id: Id)
    requires id in t.orders
    ensures exists i :: 0 <= i < |MetricsOf(t)| && SoldIn(t, t.orders[id], MetricsOf(t)[i])
    ensures forall i, j | 0 <= i < |MetricsOf(t)| && 0 <= j < |MetricsOf(t)|
                          && SoldIn(t, t.orders[id], MetricsOf(t)[i]) && SoldIn(t, t.orders[id], MetricsOf(t)[j]) ::
              i == j
  {
    var key := MetricOfOrder(t, id);
    var i := MetricAt(t, key);
    assert SoldIn(t, t.orders[id], MetricsOf(t)[i]);
  }

  // Exactly one metric has this key.
  lemma MetricAt(t: Tables, key: SalesKey) returns (i: nat)
    requires key in GroupKeys(LeftJoin(OrdersOf(t), ProductsOf(t), OrderedProduct), SalesGroup)
    ensures i < |MetricsOf(t)|
    ensures forall j | 0 <= j < |MetricsOf(t)| ::
              (MetricsOf(t)[j].date, MetricsOf(t)[j].category, MetricsOf(t)[j].productId) == key <==> j == i
  {
    var keys := GroupKeys(LeftJoin(OrdersOf(t), ProductsOf(t), OrderedProduct), SalesGroup);
    i :| 0 <= i < |keys| && keys[i] == key;
  }

  // The group of an order row; a metric is the row's exactly when it has this group.
  lemma MetricOfOrder(t: Tables, id: Id) returns (key: SalesKey)
    requires id in t.orders
    ensures key in GroupKeys(LeftJoin(OrdersOf(t), ProductsOf(t), OrderedProduct), SalesGroup)
    ensures forall m: SalesMetric :: SoldIn(t, t.orders[id], m) <==> (m.date, m.category, m.productId) == key
  {
    var joined := LeftJoin(OrdersOf(t), ProductsOf(t), OrderedProduct);
    SalesJoin(t);
    var n := ScanHas(Scan(t.orders), t.orders, id);
    key := SalesGroup(joined[n]).value;
    forall m: SalesMetric ensures SoldIn(t, t.orders[id], m) <==> (m.date, m.category, m.productId) == key {
      JoinedGroup(t, joined[n], n, m);
    }
  }
}
