/**
  The Gold models over one Silver state: which keys they have, what their joins keep, and how they grow with
  Silver.
 */
module GoldViews {
  import opened Options
  import opened Calendar
  import opened Contracts
  import opened Silver
  import opened SilverReplay
  import opened Relational
  import opened DeltaMerge
  import opened Gold
  import opened GoldFacts

  // ---------------------------------------------------------------- the models over one Silver state

  ghost function OrdersOf(t: Tables): seq<StgOrder> { StgOrders(Scan(t.orders)) }

  ghost function RefundsOf(t: Tables): seq<StgRefund> { StgRefunds(Scan(t.refunds)) }

  ghost function EventsOf(t: Tables): seq<(Id, BronzeRow)> { Scan(t.events) }

  ghost function ListedCustomers(t: Tables): seq<int> { StgCustomers(Scan(t.customers)) }

  ghost function CustomersOf(t: Tables): seq<DimCustomer> {
    CustomerMetrics(ListedCustomers(t), OrdersOf(t), EventsOf(t))
  }

  ghost function ProductsOf(t: Tables): seq<DimProduct> { StgProducts(Scan(t.products)) }

  ghost function CountriesOf(t: Tables): seq<DimCountry> { DimCountries(EventsOf(t)) }

  ghost function DatesOf(t: Tables, today: int): seq<int> { DimDates(EventsOf(t), today) }

  ghost function OrderFactsOf(t: Tables): seq<OrderFact> { FactOrders(OrdersOf(t), CustomersOf(t), ProductsOf(t)) }

  ghost function SalesOf(t: Tables): seq<SaleFact> {
    FactSales(OrdersOf(t), CustomersOf(t), ProductsOf(t), RefundsOf(t))
  }

  ghost function SessionsOf(t: Tables): seq<SessionFact> { FactSessions(EventsOf(t)) }

  ghost function InventoryOf(t: Tables): seq<InventoryFact> { FactInventory(Scan(t.inventory), ProductsOf(t)) }

  function CountryKey(c: DimCountry): string { c.country }

  function DateKey(d: int): int { d }

  function OrderKey(o: OrderFact): Id { o.order.lineId }

  function SaleKey(s: SaleFact): Id { s.saleKey }

  function SessionKey(s: SessionFact): Id { s.sessionId }

  function InventoryKey(i: InventoryFact): Id { i.lineId }

  // ---------------------------------------------------------------- scans, groups and keys

  lemma ScanHas<K, V>(rows: seq<(K, V)>, table: map<K, V>, k: K) returns (i: nat)
    requires IsScan(rows, table) && k in table
    ensures i < |rows| && rows[i] == (k, table[k])
  {
    i :| 0 <= i < |rows| && rows[i].0 == k;
  }

  ghost predicate SomeRow<K(!new), V(!new), G>(table: map<K, V>, of: ((K, V)) -> Option<G>, g: G) {
    exists k | k in table :: of((k, table[k])) == Some(g)
  }

  /** The groups of a stored table are those of its rows, whatever the order of the scan. */
  lemma {:induction false} GroupsOfScan<K(!new), V(!new), G>(table: map<K, V>, of: ((K, V)) -> Option<G>, g: G)
    ensures g in GroupKeys(Scan(table), of) <==> SomeRow(table, of, g)
  {
    var rows := Scan(table);
    if g in GroupKeys(rows, of) {
      var i :| 0 <= i < |rows| && of(rows[i]) == Some(g);
      assert rows[i].0 in table && of((rows[i].0, table[rows[i].0])) == Some(g);
    }
    if SomeRow(table, of, g) {
      var k :| k in table && of((k, table[k])) == Some(g);
      var i := ScanHas(rows, table, k);
      assert of(rows[i]).Some?;
    }
  }

  lemma KeyedRows<V, K>(rows: seq<V>, key: V -> K, keys: seq<K>)
    requires |rows| == |keys| && forall i | 0 <= i < |rows| :: key(rows[i]) == keys[i]
    ensures NoDuplicates(keys) ==> UniqueKeys(rows, key)
    ensures forall k :: HasKey(rows, key, k) <==> k in keys
  {
    forall k ensures HasKey(rows, key, k) <==> k in keys {
      if k in keys {
        var i :| 0 <= i < |keys| && keys[i] == k;
        assert key(rows[i]) == k;
      }
    }
  }

  // ---------------------------------------------------------------- which keys the dimensions have

  ghost predicate ActiveIn(t: Tables, customer: int) {
    exists id | id in t.customers :: t.customers[id].customerId == customer
  }

  ghost predicate SeenIn(t: Tables, product: int) {
    exists id | id in t.products :: t.products[id].productId == product
  }

  lemma ListedExactly(t: Tables, c: int)
    ensures c in ListedCustomers(t) <==> ActiveIn(t, c)
  {
    GroupsOfScan(t.customers, ActiveCustomer, c);
    if ActiveIn(t, c) {
      var id :| id in t.customers && t.customers[id].customerId == c;
      assert ActiveCustomer((id, t.customers[id])) == Some(c);
    }
  }

  /** dim_customer has one row for each customer with any activity. */
  lemma CustomerKeys(t: Tables, c: int)
    ensures UniqueKeys(CustomersOf(t), CustomerKey)
    ensures HasKey(CustomersOf(t), CustomerKey, c) <==> ActiveIn(t, c)
  {
    CustomerMetricsGrain(ListedCustomers(t), OrdersOf(t), EventsOf(t));
    KeyedRows(CustomersOf(t), CustomerKey, ListedCustomers(t));
    ListedExactly(t, c);
  }

  /** dim_product has one row for each product with any activity. */
  lemma ProductKeys(t: Tables, p: int)
    ensures UniqueKeys(ProductsOf(t), ProductKey)
    ensures HasKey(ProductsOf(t), ProductKey, p) <==> SeenIn(t, p)
  {
    KeyedRows(ProductsOf(t), ProductKey, GroupKeys(Scan(t.products), ActiveProduct));
    GroupsOfScan(t.products, ActiveProduct, p);
    if SeenIn(t, p) {
      var id :| id in t.products && t.products[id].productId == p;
      assert ActiveProduct((id, t.products[id])) == Some(p);
    }
  }

  ghost predicate CountrySeen(t: Tables, country: string) {
    exists id | id in t.events :: t.events[id].event.country == Some(country)
  }

  /** dim_country has one row for each country that any event names. */
  lemma CountryKeys(t: Tables, country: string)
    ensures UniqueKeys(CountriesOf(t), CountryKey)
    ensures HasKey(CountriesOf(t), CountryKey, country) <==> CountrySeen(t, country)
  {
    KeyedRows(CountriesOf(t), CountryKey, GroupKeys(EventsOf(t), EventCountry));
    GroupsOfScan(t.events, EventCountry, country);
    if CountrySeen(t, country) {
      var id :| id in t.events && t.events[id].event.country == Some(country);
      assert EventCountry((id, t.events[id])) == Some(country);
    }
  }

  // ---------------------------------------------------------------- the joins lose nothing

  /** At a completed Silver batch every order line has its customer's and its product's activity. */
  lemma OrderHasActivity(t: Tables, id: Id)
    requires Projected(t) && id in t.orders
    ensures var o := t.orders[id];
            && o.customerId.Some? && ActiveIn(t, o.customerId.value)
            && o.productId.Some? && SeenIn(t, o.productId.value)
  {
    assert WellKeyedRow(id, t.events[id]);
    assert id in t.customers && id in t.products;
  }

  // Dimensions with these keys match every order line, from the views or from tables merged to equal them.
  lemma MatchedLine(o: StgOrder, customers: seq<DimCustomer>, products: seq<DimProduct>)
    requires o.customerId.Some? && HasKey(customers, CustomerKey, o.customerId.value)
    requires o.productId.Some? && HasKey(products, ProductKey, o.productId.value)
    ensures SomeMatch(o, customers, OrderedBy) && SomeMatch(o, products, OrderedProduct)
  {
    var i :| 0 <= i < |customers| && CustomerKey(customers[i]) == o.customerId.value;
    assert OrderedBy(o, customers[i]);
    var j :| 0 <= j < |products| && ProductKey(products[j]) == o.productId.value;
    assert OrderedProduct(o, products[j]);
  }

  /** So the dimensions join every order line. */
  lemma SilverIsJoinable(t: Tables)
    requires Projected(t)
    ensures Joinable(OrdersOf(t), CustomersOf(t), ProductsOf(t))
  {
    CustomerKeys(t, 0);
    ProductKeys(t, 0);
    forall i | 0 <= i < |OrdersOf(t)|
      ensures SomeMatch(OrdersOf(t)[i], CustomersOf(t), OrderedBy)
      ensures SomeMatch(OrdersOf(t)[i], ProductsOf(t), OrderedProduct)
    {
      LineIsMatched(t, i);
    }
  }

  lemma LineIsMatched(t: Tables, i: nat)
    requires Projected(t) && i < |OrdersOf(t)|
    ensures SomeMatch(OrdersOf(t)[i], CustomersOf(t), OrderedBy)
    ensures SomeMatch(OrdersOf(t)[i], ProductsOf(t), OrderedProduct)
  {
    var o := OrdersOf(t)[i];
    LineCustomerAndProduct(t, i);
    CustomerKeys(t, o.customerId.value);
    ProductKeys(t, o.productId.value);
    MatchedLine(o, CustomersOf(t), ProductsOf(t));
  }

  lemma LineCustomerAndProduct(t: Tables, i: nat)
    requires Projected(t) && i < |OrdersOf(t)|
    ensures var o := OrdersOf(t)[i];
            && o.customerId.Some? && ActiveIn(t, o.customerId.value)
            && o.productId.Some? && SeenIn(t, o.productId.value)
  {
    var id := Scan(t.orders)[i].0;
    assert id in t.orders && t.orders[id] == Scan(t.orders)[i].1;
    OrderHasActivity(t, id);
  }

  /** What a row of silver.orders is worth: quantity times price, and nothing while either is missing. */
  function Worth(r: (Id, OrderRow)): int {
    if r.1.quantity.Some? && r.1.price.Some? then r.1.quantity.value * r.1.price.value else 0
  }

  lemma {:induction false} StagedWorth(t: Tables)
    ensures Sum(OrdersOf(t), OrderGross) == Sum(Scan(t.orders), Worth)
  {
    SumAlike(OrdersOf(t), OrderGross, Scan(t.orders), Worth);
  }

  /** The three revenue totals agree, and equal quantity times price over silver.orders, at every completed batch. */
  lemma RevenueAgrees(t: Tables)
    requires Projected(t)
    ensures var total := Sum(Scan(t.orders), Worth);
            && Sum(OrdersOf(t), OrderGross) == total
            && Sum(CustomersOf(t), CustomerGross) == total
            && Sum(SalesMetrics(OrdersOf(t), ProductsOf(t)), MetricGross) == total
            && Sum(SalesOf(t), SaleGross) == total
  {
    StagedWorth(t);
    LifetimeRevenueAgrees(t);
    ProductKeys(t, 0);
    SalesMetricsTotalOrders(OrdersOf(t), ProductsOf(t));
    SilverIsJoinable(t);
    SalesTotalOrders(OrdersOf(t), CustomersOf(t), ProductsOf(t), RefundsOf(t));
  }

  lemma LifetimeRevenueAgrees(t: Tables)
    requires Projected(t)
    ensures Sum(CustomersOf(t), CustomerGross) == Sum(OrdersOf(t), OrderGross)
  {
    forall i | 0 <= i < |OrdersOf(t)|
      ensures OrdersOf(t)[i].customerId.Some? && OrdersOf(t)[i].customerId.value in ListedCustomers(t)
    {
      LineCustomerAndProduct(t, i);
      ListedExactly(t, OrdersOf(t)[i].customerId.value);
    }
    LifetimeGrossTotalsOrders(ListedCustomers(t), OrdersOf(t), EventsOf(t));
  }

  // ---------------------------------------------------------------- which keys the facts have

  ghost function LineIds<V(!new)>(table: map<Id, V>): (ids: seq<Id>)
    ensures |ids| == |Scan(table)| && forall i | 0 <= i < |ids| :: ids[i] == Scan(table)[i].0
  {
    seq(|Scan(table)|, i requires 0 <= i < |Scan(table)| => Scan(table)[i].0)
  }

  lemma LineIdsExactly<V(!new)>(table: map<Id, V>, id: Id)
    ensures NoDuplicates(LineIds(table)) && (id in LineIds(table) <==> id in table)
  {
    if id in table {
      var i := ScanHas(Scan(table), table, id);
      assert LineIds(table)[i] == id;
    }
  }

  lemma OrderFactLines(t: Tables)
    requires Projected(t)
    ensures |OrderFactsOf(t)| == |OrdersOf(t)| == |LineIds(t.orders)|
    ensures forall i | 0 <= i < |OrdersOf(t)| ::
              OrderKey(OrderFactsOf(t)[i]) == OrdersOf(t)[i].lineId == LineIds(t.orders)[i]
  {
    SilverIsJoinable(t);
    FactOrdersGrain(OrdersOf(t), CustomersOf(t), ProductsOf(t));
  }

  /** At a completed batch fact_orders has exactly one row for every row of silver.orders, under its event id. */
  lemma OrderFactKeys(t: Tables, id: Id)
    requires Projected(t)
    ensures UniqueKeys(OrderFactsOf(t), OrderKey)
    ensures HasKey(OrderFactsOf(t), OrderKey, id) <==> id in t.orders
  {
    OrderFactLines(t);
    LineIdsExactly(t.orders, id);
    KeyedRows(OrderFactsOf(t), OrderKey, LineIds(t.orders));
  }

  lemma SaleLines(t: Tables)
    requires Projected(t)
    ensures |SalesOf(t)| == |OrdersOf(t)| == |LineIds(t.orders)|
    ensures forall i | 0 <= i < |OrdersOf(t)| ::
              && SaleOf(SalesOf(t)[i], OrdersOf(t)[i], RefundedFor(OrdersOf(t)[i].orderId, RefundsOf(t)))
              && SaleKey(SalesOf(t)[i]) == OrdersOf(t)[i].lineId == LineIds(t.orders)[i]
  {
    SilverIsJoinable(t);
    FactSalesGrain(OrdersOf(t), CustomersOf(t), ProductsOf(t), RefundsOf(t));
  }

  /** And so has fact_sales. */
  lemma SaleKeys(t: Tables, id: Id)
    requires Projected(t)
    ensures UniqueKeys(SalesOf(t), SaleKey)
    ensures HasKey(SalesOf(t), SaleKey, id) <==> id in t.orders
  {
    SaleLines(t);
    LineIdsExactly(t.orders, id);
    KeyedRows(SalesOf(t), SaleKey, LineIds(t.orders));
  }

  // Each inventory fact is one inventory row whose product is listed.
  lemma {:induction false} InventoryFactIsRow(scan: seq<(Id, InventoryRow)>, products: seq<DimProduct>, i: nat)
    requires i < |FactInventory(scan, products)|
    ensures var fact, row := FactInventory(scan, products)[i], InnerJoin(scan, products, StockedProduct)[i].0;
            && row in scan && fact.lineId == row.0 && row.1.productId == Some(fact.productKey) && fact.at == row.1.at
            && HasKey(products, ProductKey, fact.productKey)
  {
    InnerJoinRows(scan, products, StockedProduct);
    var x := InnerJoin(scan, products, StockedProduct)[i];
    assert IsJoined(x, scan, products, StockedProduct);
    var m :| 0 <= m < |products| && products[m] == x.1;
    assert ProductKey(products[m]) == x.1.productId;
  }

  lemma {:induction false} InventoryRowHasFact(scan: seq<(Id, InventoryRow)>, products: seq<DimProduct>, i: nat)
    requires i < |scan| && scan[i].1.productId.Some? && HasKey(products, ProductKey, scan[i].1.productId.value)
    ensures HasKey(FactInventory(scan, products), InventoryKey, scan[i].0)
  {
    var m :| 0 <= m < |products| && ProductKey(products[m]) == scan[i].1.productId.value;
    assert StockedProduct(scan[i], products[m]);
    var k := InnerJoinCovers(scan, products, StockedProduct, i);
    assert InventoryKey(FactInventory(scan, products)[k]) == scan[i].0;
  }

  lemma OneStocked(r: (Id, InventoryRow), products: seq<DimProduct>)
    requires UniqueKeys(products, ProductKey)
    ensures AtMostOneMatch(r, products, StockedProduct)
  {
  }

  lemma {:induction false} InventoryLinesUnique(scan: seq<(Id, InventoryRow)>, products: seq<DimProduct>)
    requires UniqueKeys(products, ProductKey) && forall i, j | 0 <= i < j < |scan| :: scan[i].0 != scan[j].0
    ensures UniqueKeys(FactInventory(scan, products), InventoryKey)
  {
    forall i | 0 <= i < |scan| ensures AtMostOneMatch(scan[i], products, StockedProduct) {
      OneStocked(scan[i], products);
    }
    InnerJoinRepeatsNothing(scan, products, StockedProduct);
    var facts := FactInventory(scan, products);
    forall i, j | 0 <= i < j < |facts| ensures InventoryKey(facts[i]) != InventoryKey(facts[j]) {
      InventoryFactIsRow(scan, products, i);
      InventoryFactIsRow(scan, products, j);
    }
  }

  /** At a completed batch fact_inventory has one row for each inventory update that names a product. */
  lemma InventoryKeys(t: Tables, id: Id)
    requires Projected(t)
    ensures UniqueKeys(InventoryOf(t), InventoryKey)
    ensures HasKey(InventoryOf(t), InventoryKey, id) <==> id in t.inventory && t.inventory[id].productId.Some?
  {
    ProductKeys(t, 0);
    InventoryLinesUnique(Scan(t.inventory), ProductsOf(t));
    if HasKey(InventoryOf(t), InventoryKey, id) { FactIsStocked(t, id); }
    if id in t.inventory && t.inventory[id].productId.Some? { StockedHasFact(t, id); }
  }

  lemma FactIsStocked(t: Tables, id: Id)
    requires HasKey(InventoryOf(t), InventoryKey, id)
    ensures id in t.inventory && t.inventory[id].productId.Some?
  {
    var i :| 0 <= i < |InventoryOf(t)| && InventoryKey(InventoryOf(t)[i]) == id;
    InventoryFactIsRow(Scan(t.inventory), ProductsOf(t), i);
  }

  lemma StockedHasFact(t: Tables, id: Id)
    requires Projected(t) && id in t.inventory && t.inventory[id].productId.Some?
    ensures HasKey(InventoryOf(t), InventoryKey, id)
  {
    StockedIsSeen(t, id);
    ProductKeys(t, t.inventory[id].productId.value);
    var i := ScanHas(Scan(t.inventory), t.inventory, id);
    InventoryRowHasFact(Scan(t.inventory), ProductsOf(t), i);
  }

  lemma StockedIsSeen(t: Tables, id: Id)
    requires Projected(t) && id in t.inventory && t.inventory[id].productId.Some?
    ensures SeenIn(t, t.inventory[id].productId.value)
  {
    assert id in t.events && id in t.products && t.products[id].productId == t.inventory[id].productId.value;
  }

  // ---------------------------------------------------------------- sessions

  ghost predicate SessionSeen(t: Tables, session: Id) {
    exists id | id in t.events :: t.events[id].event.sessionId == Some(session)
  }

  /** Two events of the session name different customers. */
  ghost predicate TwoCustomers(t: Tables, session: Id) {
    exists i, j | i in t.events && j in t.events ::
      && t.events[i].event.sessionId == t.events[j].event.sessionId == Some(session)
      && t.events[i].event.userId != t.events[j].event.userId
  }

  lemma GroupOfSession(t: Tables, session: Id, customer: Option<int>)
    ensures (session, customer) in GroupKeys(EventsOf(t), SessionGroup) <==>
            exists id | id in t.events ::
              t.events[id].event.sessionId == Some(session) && t.events[id].event.userId == customer
  {
    GroupsOfScan(t.events, SessionGroup, (session, customer));
    if id :| id in t.events && t.events[id].event.sessionId == Some(session) && t.events[id].event.userId == customer {
      assert SessionGroup((id, t.events[id])) == Some((session, customer));
    }
  }

  /** fact_sessions has a row for each session seen, and two exactly when the session has two customers. */
  lemma {:induction false} SessionKeys(t: Tables, session: Id)
    ensures HasKey(SessionsOf(t), SessionKey, session) <==> SessionSeen(t, session)
    ensures |WithKey(SessionsOf(t), SessionKey, session)| >= 2 <==> TwoCustomers(t, session)
  {
    SessionHasRow(t, session);
    if TwoCustomers(t, session) { TwoCustomersTwoRows(t, session); }
    if |WithKey(SessionsOf(t), SessionKey, session)| >= 2 { TwoRowsTwoCustomers(t, session); }
  }

  lemma SessionHasRow(t: Tables, session: Id)
    ensures HasKey(SessionsOf(t), SessionKey, session) <==> SessionSeen(t, session)
  {
    var facts, keys := SessionsOf(t), GroupKeys(EventsOf(t), SessionGroup);
    if HasKey(facts, SessionKey, session) {
      var i :| 0 <= i < |facts| && SessionKey(facts[i]) == session;
      assert keys[i] in keys && keys[i] == (session, keys[i].1);
      GroupOfSession(t, session, keys[i].1);
    }
    if SessionSeen(t, session) {
      var id :| id in t.events && t.events[id].event.sessionId == Some(session);
      GroupOfSession(t, session, t.events[id].event.userId);
      var i :| 0 <= i < |keys| && keys[i] == (session, t.events[id].event.userId);
      assert SessionKey(facts[i]) == session;
    }
  }

  lemma RowOfGroup(t: Tables, id: Id, session: Id) returns (i: nat)
    requires id in t.events && t.events[id].event.sessionId == Some(session)
    ensures i < |SessionsOf(t)|
    ensures SessionsOf(t)[i].sessionId == session && SessionsOf(t)[i].customerId == t.events[id].event.userId
  {
    var keys := GroupKeys(EventsOf(t), SessionGroup);
    GroupOfSession(t, session, t.events[id].event.userId);
    i :| 0 <= i < |keys| && keys[i] == (session, t.events[id].event.userId);
  }

  lemma {:induction false} TwoCustomersTwoRows(t: Tables, session: Id)
    requires TwoCustomers(t, session)
    ensures |WithKey(SessionsOf(t), SessionKey, session)| >= 2
  {
    var a, b :| a in t.events && b in t.events
                && t.events[a].event.sessionId == t.events[b].event.sessionId == Some(session)
                && t.events[a].event.userId != t.events[b].event.userId;
    var i := RowOfGroup(t, a, session);
    var j := RowOfGroup(t, b, session);
    TwoRowsCounted(SessionsOf(t), i, j);
  }

  lemma {:induction false} TwoRowsCounted(facts: seq<SessionFact>, i: nat, j: nat)
    requires i < |facts| && j < |facts| && i != j && facts[i].sessionId == facts[j].sessionId
    ensures |WithKey(facts, SessionKey, facts[i].sessionId)| >= 2
  {
    if i < j { TwoWithKey(facts, SessionKey, i, j); } else { TwoWithKey(facts, SessionKey, j, i); }
  }

  lemma {:induction false} TwoRowsTwoCustomers(t: Tables, session: Id)
    requires |WithKey(SessionsOf(t), SessionKey, session)| >= 2
    ensures TwoCustomers(t, session)
  {
    var facts, keys := SessionsOf(t), GroupKeys(EventsOf(t), SessionGroup);
    var i, j := TwoRowsOfKey(facts, SessionKey, session);
    assert keys[i] in keys && keys[j] in keys && keys[i] == (session, keys[i].1) && keys[j] == (session, keys[j].1);
    GroupOfSession(t, session, keys[i].1);
    GroupOfSession(t, session, keys[j].1);
    var a :| a in t.events && t.events[a].event.sessionId == Some(session) && t.events[a].event.userId == keys[i].1;
    var b :| b in t.events && t.events[b].event.sessionId == Some(session) && t.events[b].event.userId == keys[j].1;
  }

  ghost predicate OneCustomerPerSession(t: Tables) { forall session: Id :: !TwoCustomers(t, session) }

  /** The session model has unique keys exactly when no session has two customers. */
  lemma SessionKeysUniqueExactly(t: Tables)
    ensures UniqueKeys(SessionsOf(t), SessionKey) <==> OneCustomerPerSession(t)
  {
    var facts := SessionsOf(t);
    if UniqueKeys(facts, SessionKey) {
      forall session: Id ensures !TwoCustomers(t, session) {
        SessionKeys(t, session);
        UniqueMatch(facts, SessionKey, session);
      }
    } else {
      var i, j :| 0 <= i < j < |facts| && SessionKey(facts[i]) == SessionKey(facts[j]);
      TwoWithKey(facts, SessionKey, i, j);
      SessionKeys(t, SessionKey(facts[i]));
    }
  }

  // ---------------------------------------------------------------- facts do not care how a dimension is stored

  lemma LinesIgnoreStorage(
      orders: seq<StgOrder>, c: seq<DimCustomer>, d: seq<DimCustomer>, p: seq<DimProduct>, q: seq<DimProduct>)
    requires SameRows(c, d, CustomerKey) && SameRows(p, q, ProductKey)
    ensures OrderLines(orders, c, p) == OrderLines(orders, d, q)
  {
    forall i | 0 <= i < |orders|
      ensures AtMostOneMatch(orders[i], c, OrderedBy) && AtMostOneMatch(orders[i], d, OrderedBy)
    {
      OneCustomer(orders[i], c);
      OneCustomer(orders[i], d);
    }
    JoinIgnoresOrder(orders, c, d, OrderedBy);
    var pairs := InnerJoin(orders, c, OrderedBy);
    forall i | 0 <= i < |pairs|
      ensures AtMostOneMatch(pairs[i], p, LineOfProduct) && AtMostOneMatch(pairs[i], q, LineOfProduct)
    {
      OneProduct(pairs[i], p);
      OneProduct(pairs[i], q);
    }
    JoinIgnoresOrder(pairs, p, q, LineOfProduct);
  }

  lemma InventoryIgnoresStorage(scan: seq<(Id, InventoryRow)>, p: seq<DimProduct>, q: seq<DimProduct>)
    requires SameRows(p, q, ProductKey)
    ensures FactInventory(scan, p) == FactInventory(scan, q)
  {
    forall i | 0 <= i < |scan|
      ensures AtMostOneMatch(scan[i], p, StockedProduct) && AtMostOneMatch(scan[i], q, StockedProduct)
    {
      OneStocked(scan[i], p);
      OneStocked(scan[i], q);
    }
    JoinIgnoresOrder(scan, p, q, StockedProduct);
  }

  // ---------------------------------------------------------------- Silver only grows

  /** Insert-only merges never change or drop an event that is there. */
  ghost predicate Grows(t0: Tables, t: Tables) {
    forall id | id in t0.events :: id in t.events && t.events[id] == t0.events[id]
  }

  lemma CustomersGrow(t0: Tables, t: Tables)
    requires Projected(t0) && Projected(t) && Grows(t0, t)
    ensures UniqueKeys(CustomersOf(t0), CustomerKey)
    ensures KeysWithin(CustomersOf(t0), CustomersOf(t), CustomerKey)
  {
    CustomerKeys(t0, 0);
    forall i | 0 <= i < |CustomersOf(t0)| ensures HasKey(CustomersOf(t), CustomerKey, CustomerKey(CustomersOf(t0)[i])) {
      var c := CustomerKey(CustomersOf(t0)[i]);
      CustomerKeys(t0, c);
      assert HasKey(CustomersOf(t0), CustomerKey, c);
      ActiveStays(t0, t, c);
      CustomerKeys(t, c);
    }
  }

  lemma ActiveStays(t0: Tables, t: Tables, c: int)
    requires Projected(t0) && Projected(t) && Grows(t0, t) && ActiveIn(t0, c)
    ensures ActiveIn(t, c)
  {
    var id :| id in t0.customers && t0.customers[id].customerId == c;
    assert id in t.customers && t.customers[id] == t0.customers[id];
  }

  lemma ProductsGrow(t0: Tables, t: Tables)
    requires Projected(t0) && Projected(t) && Grows(t0, t)
    ensures UniqueKeys(ProductsOf(t0), ProductKey)
    ensures KeysWithin(ProductsOf(t0), ProductsOf(t), ProductKey)
  {
    ProductKeys(t0, 0);
    forall i | 0 <= i < |ProductsOf(t0)| ensures HasKey(ProductsOf(t), ProductKey, ProductKey(ProductsOf(t0)[i])) {
      var p := ProductKey(ProductsOf(t0)[i]);
      ProductKeys(t0, p);
      assert HasKey(ProductsOf(t0), ProductKey, p);
      SeenStays(t0, t, p);
      ProductKeys(t, p);
    }
  }

  lemma SeenStays(t0: Tables, t: Tables, p: int)
    requires Projected(t0) && Projected(t) && Grows(t0, t) && SeenIn(t0, p)
    ensures SeenIn(t, p)
  {
    var id :| id in t0.products && t0.products[id].productId == p;
    assert id in t.products && t.products[id] == t0.products[id];
  }

  lemma CountriesGrow(t0: Tables, t: Tables)
    requires Grows(t0, t)
    ensures UniqueKeys(CountriesOf(t0), CountryKey)
    ensures KeysWithin(CountriesOf(t0), CountriesOf(t), CountryKey)
  {
    CountryKeys(t0, "");
    forall i | 0 <= i < |CountriesOf(t0)| ensures HasKey(CountriesOf(t), CountryKey, CountryKey(CountriesOf(t0)[i])) {
      var c := CountryKey(CountriesOf(t0)[i]);
      CountryKeys(t0, c);
      assert HasKey(CountriesOf(t0), CountryKey, c);
      assert CountrySeen(t, c);
      CountryKeys(t, c);
    }
  }

  lemma OrderFactsGrow(t0: Tables, t: Tables)
    requires Projected(t0) && Projected(t) && Grows(t0, t)
    ensures UniqueKeys(OrderFactsOf(t0), OrderKey)
    ensures KeysWithin(OrderFactsOf(t0), OrderFactsOf(t), OrderKey)
  {
    OrderFactKeys(t0, 0);
    forall i | 0 <= i < |OrderFactsOf(t0)| ensures HasKey(OrderFactsOf(t), OrderKey, OrderKey(OrderFactsOf(t0)[i])) {
      var id := OrderKey(OrderFactsOf(t0)[i]);
      OrderFactKeys(t0, id);
      assert HasKey(OrderFactsOf(t0), OrderKey, id);
      OrdersStay(t0, t, id);
      OrderFactKeys(t, id);
    }
  }

  lemma OrdersStay(t0: Tables, t: Tables, id: Id)
    requires Projected(t0) && Projected(t) && Grows(t0, t) && id in t0.orders
    ensures id in t.orders
  {
  }

  lemma SalesGrow(t0: Tables, t: Tables)
    requires Projected(t0) && Projected(t) && Grows(t0, t)
    ensures UniqueKeys(SalesOf(t0), SaleKey)
    ensures KeysWithin(SalesOf(t0), SalesOf(t), SaleKey)
  {
    SaleKeys(t0, 0);
    forall i | 0 <= i < |SalesOf(t0)| ensures HasKey(SalesOf(t), SaleKey, SaleKey(SalesOf(t0)[i])) {
      var id := SaleKey(SalesOf(t0)[i]);
      SaleKeys(t0, id);
      assert HasKey(SalesOf(t0), SaleKey, id);
      OrdersStay(t0, t, id);
      SaleKeys(t, id);
    }
  }

  lemma InventoryGrows(t0: Tables, t: Tables)
    requires Projected(t0) && Projected(t) && Grows(t0, t)
    ensures UniqueKeys(InventoryOf(t0), InventoryKey)
    ensures KeysWithin(InventoryOf(t0), InventoryOf(t), InventoryKey)
  {
    InventoryKeys(t0, 0);
    forall i | 0 <= i < |InventoryOf(t0)|
      ensures HasKey(InventoryOf(t), InventoryKey, InventoryKey(InventoryOf(t0)[i]))
    {
      var id := InventoryKey(InventoryOf(t0)[i]);
      InventoryKeys(t0, id);
      assert HasKey(InventoryOf(t0), InventoryKey, id);
      InventoryStays(t0, t, id);
      InventoryKeys(t, id);
    }
  }

  lemma InventoryStays(t0: Tables, t: Tables, id: Id)
    requires Projected(t0) && Projected(t) && Grows(t0, t) && id in t0.inventory
    ensures id in t.inventory && t.inventory[id] == t0.inventory[id]
  {
  }

  lemma SessionsGrow(t0: Tables, t: Tables)
    requires Grows(t0, t)
    ensures KeysWithin(SessionsOf(t0), SessionsOf(t), SessionKey)
    ensures OneCustomerPerSession(t) ==> OneCustomerPerSession(t0)
  {
    forall i | 0 <= i < |SessionsOf(t0)| ensures HasKey(SessionsOf(t), SessionKey, SessionKey(SessionsOf(t0)[i])) {
      var session := SessionKey(SessionsOf(t0)[i]);
      SessionHasRow(t0, session);
      assert HasKey(SessionsOf(t0), SessionKey, session);
      assert SessionSeen(t, session);
      SessionHasRow(t, session);
    }
    forall session: Id | TwoCustomers(t0, session) ensures TwoCustomers(t, session) {}
  }

  // ---------------------------------------------------------------- dates

  lemma {:induction false} LeastIsLeast(events: seq<(Id, BronzeRow)>)
    ensures Least(events).None? <==> Greatest(events).None?
    ensures forall i | 0 <= i < |events| && events[i].1.event.timestamp.Some? ::
              && Least(events).Some? && Least(events).value <= events[i].1.event.timestamp.value
              && Greatest(events).Some? && events[i].1.event.timestamp.value <= Greatest(events).value
    ensures Least(events).Some? ==> exists i :: 0 <= i < |events| && events[i].1.event.timestamp == Least(events)
    ensures Greatest(events).Some? ==> exists i :: 0 <= i < |events| && events[i].1.event.timestamp == Greatest(events)
  {
    if events != [] {
      var n := |events| - 1;
      LeastIsLeast(events[..n]);
      assert forall i | 0 <= i < n :: events[..n][i] == events[i];
    }
  }

  // The day falls between the days of two events.
  ghost predicate Between(t: Tables, day: int) {
    exists i, j | i in t.events && j in t.events ::
      && t.events[i].event.timestamp.Some? && t.events[j].event.timestamp.Some?
      && t.events[i].event.timestamp.value / DAY_MS <= day <= t.events[j].event.timestamp.value / DAY_MS
  }

  /** dim_date has the days between any two events, and only today when there is no event. */
  lemma DatesExactly(t: Tables, today: int, day: int)
    requires WellKeyed(t.events)
    ensures UniqueKeys(DatesOf(t, today), DateKey)
    ensures day in DatesOf(t, today) <==> if t.events == map[] then day == today else Between(t, day)
  {
    if t.events == map[] {
      assert |EventsOf(t)| == 0 by { NoRowsScanned(EventsOf(t), t.events); }
    } else {
      RangeIsBetween(t, day);
    }
  }

  lemma NoRowsScanned<K, V>(rows: seq<(K, V)>, table: map<K, V>)
    requires IsScan(rows, table)
    ensures rows != [] ==> table != map[]
  {
    if rows != [] { assert rows[0].0 in table; }
  }

  lemma RangeIsBetween(t: Tables, day: int)
    requires WellKeyed(t.events) && t.events != map[]
    ensures Least(EventsOf(t)).Some? && Greatest(EventsOf(t)).Some?
    ensures Least(EventsOf(t)).value / DAY_MS <= day <= Greatest(EventsOf(t)).value / DAY_MS <==> Between(t, day)
  {
    var rows := EventsOf(t);
    LeastIsLeast(rows);
    var id :| id in t.events;
    assert WellKeyedRow(id, t.events[id]);
    var k := ScanHas(rows, t.events, id);
    var lo, hi := Least(rows).value, Greatest(rows).value;
    if lo / DAY_MS <= day <= hi / DAY_MS {
      var i := EventAt(t, lo);
      var j := EventAt(t, hi);
    }
    if Between(t, day) { BetweenInRange(t, day, lo, hi); }
  }

  lemma EventAt(t: Tables, at: int) returns (id: Id)
    requires exists i :: 0 <= i < |EventsOf(t)| && EventsOf(t)[i].1.event.timestamp == Some(at)
    ensures id in t.events && t.events[id].event.timestamp == Some(at)
  {
    var i :| 0 <= i < |EventsOf(t)| && EventsOf(t)[i].1.event.timestamp == Some(at);
    id := EventsOf(t)[i].0;
  }

  lemma BetweenInRange(t: Tables, day: int, lo: int, hi: int)
    requires Between(t, day)
    requires forall i | 0 <= i < |EventsOf(t)| && EventsOf(t)[i].1.event.timestamp.Some? ::
               lo <= EventsOf(t)[i].1.event.timestamp.value <= hi
    ensures lo / DAY_MS <= day <= hi / DAY_MS
  {
    var i, j :| i in t.events && j in t.events
                && t.events[i].event.timestamp.Some? && t.events[j].event.timestamp.Some?
                && t.events[i].event.timestamp.value / DAY_MS <= day <= t.events[j].event.timestamp.value / DAY_MS;
    var a := ScanHas(EventsOf(t), t.events, i);
    var b := ScanHas(EventsOf(t), t.events, j);
    DivisionMonotone(lo, t.events[i].event.timestamp.value);
    DivisionMonotone(t.events[j].event.timestamp.value, hi);
  }

  lemma DivisionMonotone(x: int, y: int)
    requires x <= y
    ensures x / DAY_MS <= y / DAY_MS
  {
  }

  lemma DateIsKey(dates: seq<int>, day: int)
    ensures HasKey(dates, DateKey, day) <==> day in dates
  {
    KeyedRows(dates, DateKey, dates);
  }

  /** The days of an earlier Silver are days of a later one, except the one day that an empty Silver stood for. */
  lemma DatesGrowExactly(t0: Tables, t: Tables, today0: int, today: int)
    requires WellKeyed(t0.events) && WellKeyed(t.events) && Grows(t0, t)
    ensures KeysWithin(DatesOf(t0, today0), DatesOf(t, today), DateKey) <==>
            (t0.events == map[] ==> today0 in DatesOf(t, today))
  {
    var dates0, dates := DatesOf(t0, today0), DatesOf(t, today);
    DatesExactly(t0, today0, today0);
    if t0.events == map[] {
      var i0 :| t0.events == map[] ==> 0 <= i0 < |dates0| && dates0[i0] == today0;
      DateIsKey(dates, today0);
      assert DateKey(dates0[i0]) == today0;
    }
    if t0.events == map[] ==> today0 in dates {
      forall i | 0 <= i < |dates0| ensures HasKey(dates, DateKey, DateKey(dates0[i])) {
        var day := dates0[i];
        assert day in dates0;
        DatesExactly(t0, today0, day);
        DatesExactly(t, today, day);
        if t0.events != map[] { BetweenStays(t0, t, day); }
        DateIsKey(dates, day);
      }
    }
  }

  lemma BetweenStays(t0: Tables, t: Tables, day: int)
    requires Grows(t0, t) && Between(t0, day)
    ensures Between(t, day) && t.events != map[]
  {
    var i, j :| i in t0.events && j in t0.events
                && t0.events[i].event.timestamp.Some? && t0.events[j].event.timestamp.Some?
                && t0.events[i].event.timestamp.value / DAY_MS <= day <= t0.events[j].event.timestamp.value / DAY_MS;
    assert i in t.events && j in t.events;
  }
}
