/** The staging, intermediate and mart models, as SQL over sequences of rows. */
module Gold {
  import opened Options
  import opened Calendar
  import opened Contracts
  import opened Silver
  import opened Relational

  // ---------------------------------------------------------------- staging

  // round(quantity * price, 2) on integer cents; NULL when either factor is.
  function Amount(quantity: Option<int>, price: Option<int>): Option<int> {
    if quantity.None? || price.None? then None else Some(quantity.value * price.value)
  }

  // A sum skips NULLs.
  function OrZero(amount: Option<int>): int { if amount.None? then 0 else amount.value }

  datatype StgOrder = StgOrder(
    lineId: Id, orderId: Option<Id>, customerId: Option<int>, productId: Option<int>, orderedAt: Option<int>,
    quantity: Option<int>, unitPrice: Option<int>, gross: Option<int>, country: Option<string>, attributes: string)

  function StageOrder(r: (Id, OrderRow)): StgOrder {
    var o := r.1;
    StgOrder(r.0, o.orderId, o.customerId, o.productId, o.orderedAt, o.quantity, o.price,
             Amount(o.quantity, o.price), o.country, o.attributes)
  }

  function StgOrders(scan: seq<(Id, OrderRow)>): (orders: seq<StgOrder>)
    ensures |orders| == |scan| && forall i | 0 <= i < |scan| :: orders[i] == StageOrder(scan[i])
  {
    seq(|scan|, i requires 0 <= i < |scan| => StageOrder(scan[i]))
  }

  datatype StgRefund = StgRefund(lineId: Id, refundId: Option<Id>, orderId: Option<Id>, amount: Option<int>)

  function StageRefund(r: (Id, RefundRow)): StgRefund {
    StgRefund(r.0, r.1.refundId, r.1.orderId, Amount(r.1.quantity, r.1.price))
  }

  function StgRefunds(scan: seq<(Id, RefundRow)>): (refunds: seq<StgRefund>)
    ensures |refunds| == |scan| && forall i | 0 <= i < |scan| :: refunds[i] == StageRefund(scan[i])
  {
    seq(|scan|, i requires 0 <= i < |scan| => StageRefund(scan[i]))
  }

  function ActiveCustomer(r: (Id, CustomerRow)): Option<int> { Some(r.1.customerId) }

  function ActiveProduct(r: (Id, ProductRow)): Option<int> { Some(r.1.productId) }

  /** One row for each customer that has any activity. */
  function StgCustomers(scan: seq<(Id, CustomerRow)>): seq<int> { GroupKeys(scan, ActiveCustomer) }

  predicate NotOlder(a: Option<int>, b: Option<int>) { a.Some? && (b.None? || b.value <= a.value) }

  // max_by(category, event_timestamp), and of the price, for one product; a tie goes to the later row of the scan.
  function LatestOf(scan: seq<(Id, ProductRow)>, product: int): Option<ProductRow> {
    if scan == [] then None
    else
      var best := LatestOf(scan[..|scan| - 1], product);
      var last := scan[|scan| - 1].1;
      if last.productId == product && (best.None? || NotOlder(last.at, best.value.at)) then Some(last) else best
  }

  datatype DimProduct = DimProduct(productId: int, category: Option<string>, price: Option<int>)

  /** One row for each product that has any activity, with its latest category and price. */
  function StgProducts(scan: seq<(Id, ProductRow)>): (products: seq<DimProduct>)
    ensures var ids := GroupKeys(scan, ActiveProduct);
            |products| == |ids| && forall i | 0 <= i < |ids| ::
              && products[i].productId == ids[i]
              && (LatestOf(scan, ids[i]).Some? ==>
                    && products[i].category == LatestOf(scan, ids[i]).value.category
                    && products[i].price == LatestOf(scan, ids[i]).value.price)
  {
    var ids := GroupKeys(scan, ActiveProduct);
    seq(|ids|, i requires 0 <= i < |ids| =>
      var latest := LatestOf(scan, ids[i]);
      DimProduct(ids[i], if latest.None? then None else latest.value.category,
                 if latest.None? then None else latest.value.price))
  }

  // ---------------------------------------------------------------- customer metrics

  datatype OrderTotal = OrderTotal(customerId: int, orders: nat, gross: int)
  datatype SessionTotal = SessionTotal(customerId: int, sessions: nat)
  datatype DimCustomer = DimCustomer(customerId: int, lifetimeOrders: nat, lifetimeGross: int, lifetimeSessions: nat)

  function OrderCustomer(o: StgOrder): Option<int> { o.customerId }

  function OrderGross(o: StgOrder): int { OrZero(o.gross) }

  function EventCustomer(r: (Id, BronzeRow)): Option<int> { r.1.event.userId }

  function OrderIdOf(customer: int): StgOrder -> Option<Id> {
    (o: StgOrder) => if o.customerId == Some(customer) then o.orderId else None
  }

  function SessionIdOf(customer: int): ((Id, BronzeRow)) -> Option<Id> {
    (r: (Id, BronzeRow)) => if r.1.event.userId == Some(customer) then r.1.event.sessionId else None
  }

  // A group whose key is NULL never joins, so it is left out of the totals.
  function OrderTotals(orders: seq<StgOrder>): (totals: seq<OrderTotal>)
    ensures var ids := GroupKeys(orders, OrderCustomer);
            |totals| == |ids| && forall i | 0 <= i < |ids| ::
              && totals[i].customerId == ids[i]
              && totals[i].orders == |GroupKeys(orders, OrderIdOf(ids[i]))|
              && totals[i].gross == GroupSum(orders, OrderCustomer, ids[i], OrderGross)
  {
    var ids := GroupKeys(orders, OrderCustomer);
    seq(|ids|, i requires 0 <= i < |ids| =>
      OrderTotal(ids[i], |GroupKeys(orders, OrderIdOf(ids[i]))|,
                 GroupSum(orders, OrderCustomer, ids[i], OrderGross)))
  }

  function SessionTotals(events: seq<(Id, BronzeRow)>): (totals: seq<SessionTotal>)
    ensures var ids := GroupKeys(events, EventCustomer);
            |totals| == |ids| && forall i | 0 <= i < |ids| ::
              totals[i].customerId == ids[i] && totals[i].sessions == |GroupKeys(events, SessionIdOf(ids[i]))|
  {
    var ids := GroupKeys(events, EventCustomer);
    seq(|ids|, i requires 0 <= i < |ids| => SessionTotal(ids[i], |GroupKeys(events, SessionIdOf(ids[i]))|))
  }

  predicate SameCustomerTotal(c: int, t: OrderTotal) { c == t.customerId }

  predicate SameCustomerSessions(c: (int, Option<OrderTotal>), t: SessionTotal) { c.0 == t.customerId }

  function MetricRow(r: ((int, Option<OrderTotal>), Option<SessionTotal>)): DimCustomer {
    var ((c, total), sessions) := r;
    DimCustomer(c, if total.None? then 0 else total.value.orders, if total.None? then 0 else total.value.gross,
                if sessions.None? then 0 else sessions.value.sessions)
  }

  /** Customers left-joined with their order totals and their session totals. */
  function CustomerMetrics(customers: seq<int>, orders: seq<StgOrder>, events: seq<(Id, BronzeRow)>): seq<DimCustomer> {
    var joined := LeftJoin(LeftJoin(customers, OrderTotals(orders), SameCustomerTotal),
                           SessionTotals(events), SameCustomerSessions);
    seq(|joined|, i requires 0 <= i < |joined| => MetricRow(joined[i]))
  }

  // ---------------------------------------------------------------- sales metrics

  datatype SalesMetric = SalesMetric(
    date: Option<int>, category: Option<string>, productId: Option<int>, orders: nat, units: int, gross: int)

  // The columns that one day's sales of one product of one category are grouped by.
  type SalesKey = (Option<int>, Option<string>, Option<int>)

  function DateOf(at: Option<int>): Option<int> { if at.None? then None else Some(at.value / DAY_MS) }

  predicate OrderedProduct(o: StgOrder, p: DimProduct) { o.productId == Some(p.productId) }

  function SalesGroup(r: (StgOrder, Option<DimProduct>)): Option<SalesKey> {
    Some((DateOf(r.0.orderedAt), if r.1.None? then None else r.1.value.category, r.0.productId))
  }

  function JoinedGross(r: (StgOrder, Option<DimProduct>)): int { OrderGross(r.0) }

  function JoinedUnits(r: (StgOrder, Option<DimProduct>)): int { OrZero(r.0.quantity) }

  function JoinedOrder(group: SalesKey): ((StgOrder, Option<DimProduct>)) -> Option<Id> {
    (r: (StgOrder, Option<DimProduct>)) => if SalesGroup(r) == Some(group) then r.0.orderId else None
  }

  function SalesMetrics(orders: seq<StgOrder>, products: seq<DimProduct>): (metrics: seq<SalesMetric>)
    ensures var joined := LeftJoin(orders, products, OrderedProduct);
            var keys := GroupKeys(joined, SalesGroup);
            |metrics| == |keys| && forall i | 0 <= i < |keys| ::
              && metrics[i].gross == GroupSum(joined, SalesGroup, keys[i], JoinedGross)
              && metrics[i].units == GroupSum(joined, SalesGroup, keys[i], JoinedUnits)
              && metrics[i].orders == |GroupKeys(joined, JoinedOrder(keys[i]))|
              && (metrics[i].date, metrics[i].category, metrics[i].productId) == keys[i]
  {
    var joined := LeftJoin(orders, products, OrderedProduct);
    var keys := GroupKeys(joined, SalesGroup);
    seq(|keys|, i requires 0 <= i < |keys| =>
      SalesMetric(keys[i].0, keys[i].1, keys[i].2, |GroupKeys(joined, JoinedOrder(keys[i]))|,
                  GroupSum(joined, SalesGroup, keys[i], JoinedUnits),
                  GroupSum(joined, SalesGroup, keys[i], JoinedGross)))
  }

  // ---------------------------------------------------------------- fact tables

  datatype RefundTotal = RefundTotal(orderId: Id, amount: int)

  function RefundOrder(r: StgRefund): Option<Id> { r.orderId }

  function RefundAmount(r: StgRefund): int { OrZero(r.amount) }

  function RefundTotals(refunds: seq<StgRefund>): (totals: seq<RefundTotal>)
    ensures var ids := GroupKeys(refunds, RefundOrder);
            |totals| == |ids| && forall i | 0 <= i < |ids| ::
              totals[i] == RefundTotal(ids[i], GroupSum(refunds, RefundOrder, ids[i], RefundAmount))
  {
    var ids := GroupKeys(refunds, RefundOrder);
    seq(|ids|, i requires 0 <= i < |ids| =>
      RefundTotal(ids[i], GroupSum(refunds, RefundOrder, ids[i], RefundAmount)))
  }

  predicate OrderedBy(o: StgOrder, c: DimCustomer) { o.customerId == Some(c.customerId) }

  predicate LineOfProduct(x: (StgOrder, DimCustomer), p: DimProduct) { OrderedProduct(x.0, p) }

  predicate LineRefunded(x: ((StgOrder, DimCustomer), DimProduct), r: RefundTotal) { x.0.0.orderId == Some(r.orderId) }

  /** Order lines joined with both dimensions: what both order facts start from. */
  function OrderLines(orders: seq<StgOrder>, customers: seq<DimCustomer>, products: seq<DimProduct>)
    : seq<((StgOrder, DimCustomer), DimProduct)>
  {
    InnerJoin(InnerJoin(orders, customers, OrderedBy), products, LineOfProduct)
  }

  // Surrogate keys are injective hashes of the natural keys, so the natural keys stand for them.
  datatype OrderFact = OrderFact(order: StgOrder, customerKey: int, productKey: int, date: Option<int>)

  function OrderFactOf(x: ((StgOrder, DimCustomer), DimProduct)): OrderFact {
    OrderFact(x.0.0, x.0.1.customerId, x.1.productId, DateOf(x.0.0.orderedAt))
  }

  function FactOrders(orders: seq<StgOrder>, customers: seq<DimCustomer>, products: seq<DimProduct>): seq<OrderFact> {
    var lines := OrderLines(orders, customers, products);
    seq(|lines|, i requires 0 <= i < |lines| => OrderFactOf(lines[i]))
  }

  datatype SaleFact = SaleFact(
    saleKey: Id, orderId: Option<Id>, customerKey: int, productKey: int, soldAt: Option<int>,
    quantity: Option<int>, unitPrice: Option<int>, gross: Option<int>, refunded: int, net: Option<int>)

  function SaleFactOf(x: (((StgOrder, DimCustomer), DimProduct), Option<RefundTotal>)): SaleFact {
    var (((o, c), p), r) := x;
    var refunded := if r.None? then 0 else r.value.amount;
    SaleFact(o.lineId, o.orderId, c.customerId, p.productId, o.orderedAt, o.quantity, o.unitPrice, o.gross,
             refunded, if o.gross.None? then None else Some(o.gross.value - refunded))
  }

  function FactSales(
      orders: seq<StgOrder>, customers: seq<DimCustomer>, products: seq<DimProduct>, refunds: seq<StgRefund>)
    : seq<SaleFact>
  {
    var lines := LeftJoin(OrderLines(orders, customers, products), RefundTotals(refunds), LineRefunded);
    seq(|lines|, i requires 0 <= i < |lines| => SaleFactOf(lines[i]))
  }

  datatype SessionFact = SessionFact(sessionId: Id, customerId: Option<int>, events: nat, purchases: nat)

  function SessionGroup(r: (Id, BronzeRow)): Option<(Id, Option<int>)> {
    if r.1.event.sessionId.None? then None else Some((r.1.event.sessionId.value, r.1.event.userId))
  }

  function CountIn(events: seq<(Id, BronzeRow)>, group: (Id, Option<int>), kind: Option<EventType>): nat {
    if events == [] then 0
    else
      var last := events[|events| - 1];
      CountIn(events[..|events| - 1], group, kind) +
      if SessionGroup(last) == Some(group) && (kind.None? || last.1.event.eventType == kind) then 1 else 0
  }

  function FactSessions(events: seq<(Id, BronzeRow)>): (facts: seq<SessionFact>)
    ensures var keys := GroupKeys(events, SessionGroup);
            |facts| == |keys| && forall i | 0 <= i < |keys| ::
              facts[i] == SessionFact(keys[i].0, keys[i].1, CountIn(events, keys[i], None),
                                      CountIn(events, keys[i], Some(Purchase)))
  {
    var keys := GroupKeys(events, SessionGroup);
    seq(|keys|, i requires 0 <= i < |keys| =>
      SessionFact(keys[i].0, keys[i].1, CountIn(events, keys[i], None), CountIn(events, keys[i], Some(Purchase))))
  }

  datatype InventoryFact = InventoryFact(lineId: Id, productKey: int, at: Option<int>, attributes: string)

  predicate StockedProduct(r: (Id, InventoryRow), p: DimProduct) { r.1.productId == Some(p.productId) }

  function FactInventory(scan: seq<(Id, InventoryRow)>, products: seq<DimProduct>): seq<InventoryFact> {
    var lines := InnerJoin(scan, products, StockedProduct);
    seq(|lines|, i requires 0 <= i < |lines| =>
      InventoryFact(lines[i].0.0, lines[i].1.productId, lines[i].0.1.at, lines[i].0.1.attributes))
  }

  datatype DimCountry = DimCountry(country: string, events: nat)

  function EventCountry(r: (Id, BronzeRow)): Option<string> { r.1.event.country }

  function CountCountry(events: seq<(Id, BronzeRow)>, country: string): nat {
    if events == [] then 0
    else
      CountCountry(events[..|events| - 1], country) +
      if EventCountry(events[|events| - 1]) == Some(country) then 1 else 0
  }

  function DimCountries(events: seq<(Id, BronzeRow)>): (rows: seq<DimCountry>)
    ensures var keys := GroupKeys(events, EventCountry);
            |rows| == |keys| && forall i | 0 <= i < |keys| ::
              rows[i] == DimCountry(keys[i], CountCountry(events, keys[i]))
  {
    var keys := GroupKeys(events, EventCountry);
    seq(|keys|, i requires 0 <= i < |keys| => DimCountry(keys[i], CountCountry(events, keys[i])))
  }

  // ---------------------------------------------------------------- dates

  // min and max skip NULLs, and are NULL over nothing.
  function Least(events: seq<(Id, BronzeRow)>): Option<int> {
    if events == [] then None
    else
      var before, at := Least(events[..|events| - 1]), events[|events| - 1].1.event.timestamp;
      if at.None? || (before.Some? && before.value <= at.value) then before else at
  }

  function Greatest(events: seq<(Id, BronzeRow)>): Option<int> {
    if events == [] then None
    else
      var before, at := Greatest(events[..|events| - 1]), events[|events| - 1].1.event.timestamp;
      if at.None? || (before.Some? && at.value <= before.value) then before else at
  }

  /** Every date from the first event's to the last event's; only today when there is no event. */
  function DimDates(events: seq<(Id, BronzeRow)>, today: int): (dates: seq<int>)
    ensures forall d :: d in dates <==>
              if Least(events).None? || Greatest(events).None? then d == today
              else Least(events).value / DAY_MS <= d <= Greatest(events).value / DAY_MS
    ensures forall i, j | 0 <= i < j < |dates| :: dates[i] < dates[j]
  {
    var lo, hi := DateOf(Least(events)), DateOf(Greatest(events));
    if lo.None? || hi.None? then [today] else DateRange(lo.value, hi.value)
  }

  function DateRange(lo: int, hi: int): (dates: seq<int>)
    ensures forall d :: d in dates <==> lo <= d <= hi
    ensures forall i, j | 0 <= i < j < |dates| :: dates[i] < dates[j]
    decreases hi - lo
  {
    if hi < lo then []
    else
      var before := DateRange(lo, hi - 1);
      assert forall i | 0 <= i < |before| :: before[i] in before;
      before + [hi]
  }
}
