/**
  The Silver micro-batch transform: classification with SQL's three-valued logic, deduplication by
  event id, and seven insert-only merges, between any two of which an attempt may crash.
 */
module Silver {
  import opened Options
  import opened Contracts

  // ---------------------------------------------------------------- classification

  // A SQL condition is true, false or unknown; a branch fires only when it is true.
  datatype Tri = Yes | No | Unknown

  function Not(a: Tri): Tri { match a case Yes => No case No => Yes case Unknown => Unknown }

  function And(a: Tri, b: Tri): Tri {
    if a == No || b == No then No else if a == Yes && b == Yes then Yes else Unknown
  }

  function Or(a: Tri, b: Tri): Tri { Not(And(Not(a), Not(b))) }

  function Known(b: bool): Tri { if b then Yes else No }

  function IsNull<T>(x: Option<T>): Tri { Known(x.None?) }

  function AtMostZero(x: Option<int>): Tri { if x.None? then Unknown else Known(x.value <= 0) }

  function LaterThan(x: Option<int>, now: int): Tri { if x.None? then Unknown else Known(x.value > now) }

  function InValidTypes(kind: Option<EventType>): Tri {
    if kind.None? then Unknown else Known(!kind.value.Other?)
  }

  function TypeIs(kind: Option<EventType>, wanted: EventType): Tri {
    if kind.None? then Unknown else Known(kind.value == wanted)
  }

  datatype Reason =
    | MissingEventId | InvalidEventType | InvalidTimestamp | FutureTimestamp
    | MissingPurchaseKey | InvalidPurchaseValue

  /** What two-valued reasoning about present fields accepts: a null type, price or quantity is no offence. */
  predicate Acceptable(e: Event, now: int) {
    && e.eventId.Some?
    && (e.eventType.Some? ==> !e.eventType.value.Other?)
    && e.timestamp.Some? && e.timestamp.value <= now
    && (Is(e, Purchase) ==>
          && e.userId.Some? && e.productId.Some?
          && (e.price.Some? ==> 0 < e.price.value)
          && (e.quantity.Some? ==> 0 < e.quantity.value))
  }

  function Classify(e: Event, now: int): (reason: Option<Reason>)
    ensures reason.None? <==> Acceptable(e, now)
  {
    var purchase := TypeIs(e.eventType, Purchase);
    if IsNull(e.eventId) == Yes then Some(MissingEventId)
    else if Not(InValidTypes(e.eventType)) == Yes then Some(InvalidEventType)
    else if IsNull(e.timestamp) == Yes then Some(InvalidTimestamp)
    else if LaterThan(e.timestamp, now) == Yes then Some(FutureTimestamp)
    else if And(purchase, Or(IsNull(e.userId), IsNull(e.productId))) == Yes then Some(MissingPurchaseKey)
    else if And(purchase, Or(AtMostZero(e.price), AtMostZero(e.quantity))) == Yes then Some(InvalidPurchaseValue)
    else None
  }

  // The chain got past its first four conditions.
  predicate EnvelopeHolds(e: Event, now: int) {
    && e.eventId.Some? && (e.eventType.Some? ==> !e.eventType.value.Other?)
    && e.timestamp.Some? && e.timestamp.value <= now
  }

  /** Which reason a rejected event gets: the first condition of the chain that is true of it. */
  lemma ReasonExactly(e: Event, now: int)
    ensures var reason := Classify(e, now);
            var lacksKey := e.userId.None? || e.productId.None?;
            && (reason == Some(MissingEventId) <==> e.eventId.None?)
            && (reason == Some(InvalidEventType) <==>
                  e.eventId.Some? && e.eventType.Some? && e.eventType.value.Other?)
            && (reason == Some(InvalidTimestamp) <==>
                  e.eventId.Some? && (e.eventType.Some? ==> !e.eventType.value.Other?) && e.timestamp.None?)
            && (reason == Some(FutureTimestamp) <==>
                  && e.eventId.Some? && (e.eventType.Some? ==> !e.eventType.value.Other?)
                  && e.timestamp.Some? && now < e.timestamp.value)
            && (reason == Some(MissingPurchaseKey) <==> EnvelopeHolds(e, now) && Is(e, Purchase) && lacksKey)
            && (reason == Some(InvalidPurchaseValue) <==>
                  && EnvelopeHolds(e, now) && Is(e, Purchase) && !lacksKey
                  && ((e.price.Some? && e.price.value <= 0) || (e.quantity.Some? && e.quantity.value <= 0)))
  {
  }

  /**
    What Silver accepts meets the documented contract exactly when it has a type, a purchase has its two
    amounts, and a refund has two positive ones: a null amount is let through, and refunds are not looked at.
   */
  lemma AcceptedMeetsContractExactly(e: Event, now: int)
    requires Classify(e, now).None?
    ensures MeetsContract(e) <==>
              && e.eventType.Some?
              && (Is(e, Purchase) ==> e.price.Some? && e.quantity.Some?)
              && (Is(e, Refund) ==> Positive(e.price) && Positive(e.quantity))
  {
  }

  /**
    What meets the documented contract is accepted exactly when it is not in the future and a purchase has its
    keys.
   */
  lemma MeetingContractAcceptedExactly(e: Event, now: int)
    requires MeetsContract(e)
    ensures Classify(e, now).None? <==>
              e.timestamp.value <= now && (Is(e, Purchase) ==> e.userId.Some? && e.productId.Some?)
  {
  }

  /** What the producer routes is accepted exactly when it is not in the future and a purchase has positive amounts. */
  lemma RoutedAcceptedExactly(e: Event, now: int)
    requires TopicFor(e).Ok?
    ensures Classify(e, now).None? <==>
              e.timestamp.value <= now && (Is(e, Purchase) ==> 0 < e.price.value && 0 < e.quantity.value)
  {
    RoutedExactly(e);
  }

  /** What Silver accepts would be routed exactly when it has a type and its purchase or refund has all four fields. */
  lemma AcceptedRoutedExactly(e: Event, now: int)
    requires Classify(e, now).None?
    ensures TopicFor(e).Ok? <==> e.eventType.Some? && (MovesMoney(e) ==> MissingMoneyField(e).None?)
  {
    RoutedExactly(e);
  }

  // An event that would be in order but for what the arguments say.
  function Sample(kind: Option<EventType>, at: int, price: Option<int>, quantity: Option<int>): Event {
    Event(eventId := Some(0), eventType := kind, timestamp := Some(at), userId := Some(1), productId := Some(1),
          price := price, quantity := quantity)
  }

  /**
    Inputs that Silver accepts against the documented contract; the last two are routed or amount to a negative
    refund.
   */
  lemma ContractBreachesAccepted(now: int)
    ensures var e := Sample(None, now, Some(5), Some(1)); Classify(e, now).None? && !MeetsContract(e)
    ensures var e := Sample(Some(Purchase), now, None, Some(1)); Classify(e, now).None? && !MeetsContract(e)
    ensures var e := Sample(Some(Purchase), now, Some(5), None); Classify(e, now).None? && !MeetsContract(e)
    ensures var e := Sample(Some(Refund), now, Some(-5), Some(1));
            Classify(e, now).None? && TopicFor(e) == Ok(RefundEvents) && !MeetsContract(e)
  {
    var e := Sample(Some(Refund), now, Some(-5), Some(1));
    assert Missing(e) == [] && MissingMoneyField(e).None?;
  }

  /** A purchase at price zero is routed, and then quarantined. */
  lemma RoutedButQuarantined(now: int)
    ensures var e := Sample(Some(Purchase), now, Some(0), Some(1));
            TopicFor(e) == Ok(PurchaseEvents) && Classify(e, now) == Some(InvalidPurchaseValue)
  {
    var e := Sample(Some(Purchase), now, Some(0), Some(1));
    assert Missing(e) == [] && MissingMoneyField(e).None?;
  }

  // ---------------------------------------------------------------- rows and tables

  datatype Coord = Coord(topic: string, partition: nat, offset: nat)

  // A Bronze row: Kafka lineage and the parsed payload.  A payload that does not parse has no field at all.
  datatype BronzeRow = BronzeRow(coord: Coord, ingestedAt: int, event: Event)

  datatype OrderRow = OrderRow(
    orderId: Option<Id>, customerId: Option<int>, productId: Option<int>, orderedAt: Option<int>,
    quantity: Option<int>, price: Option<int>, country: Option<string>, attributes: string)

  datatype RefundRow = RefundRow(
    refundId: Option<Id>, orderId: Option<Id>, customerId: Option<int>, productId: Option<int>,
    refundedAt: Option<int>, quantity: Option<int>, price: Option<int>, attributes: string)

  datatype CustomerRow = CustomerRow(customerId: int, at: Option<int>, country: Option<string>, attributes: string)

  datatype ProductRow = ProductRow(
    productId: int, category: Option<string>, price: Option<int>, at: Option<int>, attributes: string)

  datatype InventoryRow = InventoryRow(productId: Option<int>, at: Option<int>, attributes: string)

  datatype QuarantineRow = QuarantineRow(row: BronzeRow, reason: Reason)

  // Quarantine ids are hashes of the Kafka coordinates, so the coordinates stand for them.
  datatype Tables = Tables(
    events: map<Id, BronzeRow>,
    orders: map<Id, OrderRow>,
    refunds: map<Id, RefundRow>,
    customers: map<Id, CustomerRow>,
    products: map<Id, ProductRow>,
    inventory: map<Id, InventoryRow>,
    quarantine: map<Coord, QuarantineRow>)

  const EmptyTables := Tables(map[], map[], map[], map[], map[], map[], map[])

  function AsOrder(e: Event): Option<OrderRow> {
    if Is(e, Purchase) then
      Some(OrderRow(e.orderId, e.userId, e.productId, e.timestamp, e.quantity, e.price, e.country, e.attributes))
    else None
  }

  function AsRefund(e: Event): Option<RefundRow> {
    if Is(e, Refund) then
      Some(RefundRow(e.refundId, e.orderId, e.userId, e.productId, e.timestamp, e.quantity, e.price, e.attributes))
    else None
  }

  function AsCustomer(e: Event): Option<CustomerRow> {
    if e.userId.Some? then Some(CustomerRow(e.userId.value, e.timestamp, e.country, e.attributes)) else None
  }

  function AsProduct(e: Event): Option<ProductRow> {
    if e.productId.Some? then Some(ProductRow(e.productId.value, e.category, e.price, e.timestamp, e.attributes))
    else None
  }

  function AsInventory(e: Event): Option<InventoryRow> {
    if Is(e, InventoryUpdate) then Some(InventoryRow(e.productId, e.timestamp, e.attributes)) else None
  }

  /** The filter and select in front of a merge: the rows that have such a form, by event id. */
  function Project<V>(rows: map<Id, BronzeRow>, form: Event -> Option<V>): map<Id, V> {
    map id | id in rows && form(rows[id].event).Some? :: form(rows[id].event).value
  }

  function Orders(rows: map<Id, BronzeRow>): map<Id, OrderRow> { Project(rows, AsOrder) }

  function Refunds(rows: map<Id, BronzeRow>): map<Id, RefundRow> { Project(rows, AsRefund) }

  function Customers(rows: map<Id, BronzeRow>): map<Id, CustomerRow> { Project(rows, AsCustomer) }

  function Products(rows: map<Id, BronzeRow>): map<Id, ProductRow> { Project(rows, AsProduct) }

  function Inventory(rows: map<Id, BronzeRow>): map<Id, InventoryRow> { Project(rows, AsInventory) }

  predicate UniqueCoords(batch: seq<BronzeRow>) {
    forall i, j | 0 <= i < j < |batch| :: batch[i].coord != batch[j].coord
  }

  function Quarantine(batch: seq<BronzeRow>, now: int): map<Coord, QuarantineRow>
    requires UniqueCoords(batch)
  {
    map i | 0 <= i < |batch| && Classify(batch[i].event, now).Some? ::
      batch[i].coord := QuarantineRow(batch[i], Classify(batch[i].event, now).value)
  }

  // ---------------------------------------------------------------- merges and attempts

  /** Insert-only merge: rows whose key the target already has are ignored. */
  function InsertNew<K, V>(target: map<K, V>, source: map<K, V>): map<K, V> { source + target }

  predicate ValidIn(batch: seq<BronzeRow>, now: int, r: BronzeRow) {
    r in batch && Classify(r.event, now).None?
  }

  /** One valid row for each event id that has any; which one is up to the engine. */
  ghost predicate IsDedup(picked: map<Id, BronzeRow>, batch: seq<BronzeRow>, now: int) {
    && (forall id | id in picked :: ValidIn(batch, now, picked[id]) && picked[id].event.eventId == Some(id))
    && (forall r | ValidIn(batch, now, r) :: r.event.eventId.value in picked)
  }

  // An attempt reads the clock anew, and deduplicates anew, for each merge; it completes the first `stop` of seven.
  datatype Attempt = Attempt(clocks: seq<int>, picks: seq<map<Id, BronzeRow>>, stop: nat)

  ghost predicate IsAttempt(a: Attempt, batch: seq<BronzeRow>) {
    && |a.clocks| == 7 && |a.picks| == 6 && a.stop <= 7
    && forall k | 0 <= k < 6 :: IsDedup(a.picks[k], batch, a.clocks[k])
  }

  function Merge(t: Tables, batch: seq<BronzeRow>, a: Attempt, k: nat): Tables
    requires UniqueCoords(batch) && |a.clocks| == 7 && |a.picks| == 6 && k < 7
  {
    match k
    case 0 => t.(events := InsertNew(t.events, a.picks[0]))
    case 1 => t.(orders := InsertNew(t.orders, Orders(a.picks[1])))
    case 2 => t.(refunds := InsertNew(t.refunds, Refunds(a.picks[2])))
    case 3 => t.(customers := InsertNew(t.customers, Customers(a.picks[3])))
    case 4 => t.(products := InsertNew(t.products, Products(a.picks[4])))
    case 5 => t.(inventory := InsertNew(t.inventory, Inventory(a.picks[5])))
    case _ => t.(quarantine := InsertNew(t.quarantine, Quarantine(batch, a.clocks[6])))
  }

  function Merges(t: Tables, batch: seq<BronzeRow>, a: Attempt, n: nat): Tables
    requires UniqueCoords(batch) && |a.clocks| == 7 && |a.picks| == 6 && n <= 7
  {
    if n == 0 then t else Merge(Merges(t, batch, a, n - 1), batch, a, n - 1)
  }

  /** Any number of attempts at one batch, one after the other. */
  function Attempts(t: Tables, batch: seq<BronzeRow>, attempts: seq<Attempt>): Tables
    requires UniqueCoords(batch)
    requires forall i | 0 <= i < |attempts| ::
               |attempts[i].clocks| == 7 && |attempts[i].picks| == 6 && attempts[i].stop <= 7
  {
    if attempts == [] then t
    else
      var last := attempts[|attempts| - 1];
      Merges(Attempts(t, batch, attempts[..|attempts| - 1]), batch, last, last.stop)
  }

  // ---------------------------------------------------------------- the store

  class SilverStore {
    var events: map<Id, BronzeRow>
    var orders: map<Id, OrderRow>
    var refunds: map<Id, RefundRow>
    var customers: map<Id, CustomerRow>
    var products: map<Id, ProductRow>
    var inventory: map<Id, InventoryRow>
    var quarantine: map<Coord, QuarantineRow>

    function View(): Tables
      reads this
    {
      Tables(events, orders, refunds, customers, products, inventory, quarantine)
    }

    constructor ()
      ensures View() == EmptyTables
    {
      events, orders, refunds, customers := map[], map[], map[], map[];
      products, inventory, quarantine := map[], map[], map[];
    }

    /** The merge helper: an empty frame returns early, any other inserts its unseen keys. */
    static method MergeInsertOnly<K, V>(target: map<K, V>, frame: map<K, V>) returns (merged: map<K, V>)
      ensures merged == InsertNew(target, frame)
      ensures forall k | k in target :: k in merged && merged[k] == target[k]
    {
      if |frame| == 0 {
        assert frame == map[];
        return target;
      }
      merged := frame + target;
    }

    /** Keeps the first valid row of each event id; another engine may keep another. */
    static method DropDuplicates(batch: seq<BronzeRow>, now: int) returns (picked: map<Id, BronzeRow>)
      ensures IsDedup(picked, batch, now)
    {
      picked := map[];
      for i := 0 to |batch|
        invariant forall id | id in picked ::
                    ValidIn(batch, now, picked[id]) && picked[id].event.eventId == Some(id)
        invariant forall j | 0 <= j < i && Classify(batch[j].event, now).None? :: batch[j].event.eventId.value in picked
      {
        var e := batch[i].event;
        if Classify(e, now).None? && e.eventId.value !in picked {
          picked := picked[e.eventId.value := batch[i]];
        }
      }
    }

    /** One attempt at a batch; it dies after `stop` merges when that is less than seven. */
    method TransformBatch(batch: seq<BronzeRow>, clocks: seq<int>, stop: nat) returns (a: Attempt)
      requires UniqueCoords(batch) && |clocks| == 7 && stop <= 7
      modifies this
      ensures IsAttempt(a, batch) && a.clocks == clocks && a.stop == stop
      ensures View() == Merges(old(View()), batch, a, stop)
    {
      var picks: seq<map<Id, BronzeRow>> := [];
      while |picks| < 6
        invariant |picks| <= 6 && View() == old(View())
        invariant forall k | 0 <= k < |picks| :: IsDedup(picks[k], batch, clocks[k])
      {
        var picked := DropDuplicates(batch, clocks[|picks|]);
        picks := picks + [picked];
      }
      a := Attempt(clocks, picks, stop);
      var k := 0;
      while k < stop
        invariant 0 <= k <= stop
        invariant View() == Merges(old(View()), batch, a, k)
      {
        MergeTable(batch, a, k);
        k := k + 1;
      }
    }

    // The k-th merge statement.
    method MergeTable(batch: seq<BronzeRow>, a: Attempt, k: nat)
      requires UniqueCoords(batch) && |a.clocks| == 7 && |a.picks| == 6 && k < 7
      modifies this
      ensures View() == Merge(old(View()), batch, a, k)
    {
      match k {
        case 0 => events := MergeInsertOnly(events, a.picks[0]);
        case 1 => orders := MergeInsertOnly(orders, Orders(a.picks[1]));
        case 2 => refunds := MergeInsertOnly(refunds, Refunds(a.picks[2]));
        case 3 => customers := MergeInsertOnly(customers, Customers(a.picks[3]));
        case 4 => products := MergeInsertOnly(products, Products(a.picks[4]));
        case 5 => inventory := MergeInsertOnly(inventory, Inventory(a.picks[5]));
        case _ => quarantine := MergeInsertOnly(quarantine, Quarantine(batch, a.clocks[6]));
      }
    }
  }
}
