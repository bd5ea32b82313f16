/** The event contract shared by producer and consumers, and the routing of events to topics. */
module Contracts {
  import opened Options

  // Event, session, order and refund ids: opaque tokens, of which only equality matters.
  type Id = nat

  datatype EventType =
    | PageView | ProductView | Search | AddToCart | RemoveFromCart | Purchase | Refund
    | InventoryUpdate | UserLogin | ProductReview
    | Other(name: string)

  // One event payload; an absent field and a null are the same thing.  Prices are integer cents.
  // `attributes` stands for the descriptive columns that no rule looks at.
  datatype Event = Event(
    eventId: Option<Id> := None,
    eventType: Option<EventType> := None,
    timestamp: Option<int> := None,
    userId: Option<int> := None,
    sessionId: Option<Id> := None,
    productId: Option<int> := None,
    category: Option<string> := None,
    price: Option<int> := None,
    quantity: Option<int> := None,
    orderId: Option<Id> := None,
    refundId: Option<Id> := None,
    country: Option<string> := None,
    attributes: string := "")

  predicate Is(e: Event, kind: EventType) { e.eventType == Some(kind) }

  datatype Topic = CustomerEvents | PurchaseEvents | RefundEvents | InventoryEvents | ProductEvents

  datatype ContractError =
    | MissingFields(fields: seq<string>)
    | UnsupportedType(name: string)
    | MissingValue(field: string)

  function Missing(e: Event): seq<string> {
    (if e.eventId.None? then ["event_id"] else [])
    + (if e.eventType.None? then ["event_type"] else [])
    + (if e.timestamp.None? then ["timestamp"] else [])
  }

  predicate MovesMoney(e: Event) { Is(e, Purchase) || Is(e, Refund) }

  // The first field that a purchase or refund must have and does not.
  function MissingMoneyField(e: Event): Option<string> {
    if e.userId.None? then Some("user_id")
    else if e.productId.None? then Some("product_id")
    else if e.price.None? then Some("price")
    else if e.quantity.None? then Some("quantity")
    else None
  }

  function RouteOf(kind: EventType): Topic
    requires !kind.Other?
  {
    match kind
    case Purchase => PurchaseEvents
    case Refund => RefundEvents
    case InventoryUpdate => InventoryEvents
    case ProductReview => ProductEvents
    case _ => CustomerEvents
  }

  function TopicFor(e: Event): Result<Topic, ContractError> {
    if Missing(e) != [] then Err(MissingFields(Missing(e)))
    else if e.eventType.value.Other? then Err(UnsupportedType(e.eventType.value.name))
    else if MovesMoney(e) && MissingMoneyField(e).Some? then Err(MissingValue(MissingMoneyField(e).value))
    else Ok(RouteOf(e.eventType.value))
  }

  /** An event is routed exactly when every field that its type needs is there. */
  lemma RoutedExactly(e: Event)
    ensures TopicFor(e).Ok? <==>
              && e.eventId.Some? && e.timestamp.Some? && e.eventType.Some? && !e.eventType.value.Other?
              && (MovesMoney(e) ==> e.userId.Some? && e.productId.Some? && e.price.Some? && e.quantity.Some?)
    ensures TopicFor(e) == Err(MissingFields(Missing(e))) <==> Missing(e) != []
    ensures TopicFor(e).Ok? ==>
              && (TopicFor(e).value == PurchaseEvents <==> Is(e, Purchase))
              && (TopicFor(e).value == RefundEvents <==> Is(e, Refund))
              && (TopicFor(e).value == InventoryEvents <==> Is(e, InventoryUpdate))
              && (TopicFor(e).value == ProductEvents <==> Is(e, ProductReview))
  {
  }

  /** What a refusal names: every missing field of the envelope, or the unknown type, or the first missing value. */
  lemma RefusalExactly(e: Event)
    requires TopicFor(e).Err?
    ensures match TopicFor(e).error
            case MissingFields(fields) =>
              && ("event_id" in fields <==> e.eventId.None?)
              && ("event_type" in fields <==> e.eventType.None?)
              && ("timestamp" in fields <==> e.timestamp.None?)
              && fields != [] && (forall f | f in fields :: f in ["event_id", "event_type", "timestamp"])
              && (fields[0] == "event_id" <==> e.eventId.None?)
              && (fields[|fields| - 1] == "timestamp" <==> e.timestamp.None?)
            case UnsupportedType(name) => e.eventType == Some(Other(name))
            case MissingValue(field) =>
              && MovesMoney(e)
              && (field == "user_id" <==> e.userId.None?)
              && (field == "product_id" <==> e.userId.Some? && e.productId.None?)
              && (field == "price" <==> e.userId.Some? && e.productId.Some? && e.price.None?)
              && (field == "quantity" <==>
                    e.userId.Some? && e.productId.Some? && e.price.Some? && e.quantity.None?)
  {
    assert |"event_id"| == 8 && |"event_type"| == 10 && |"timestamp"| == 9;
    assert |"user_id"| == 7 && |"product_id"| == 10 && |"price"| == 5 && |"quantity"| == 8;
  }

  predicate Positive(x: Option<int>) { x.Some? && 0 < x.value }

  /** The documented contract: a complete envelope, a known type, and positive amounts on purchases and refunds. */
  predicate MeetsContract(e: Event) {
    && e.eventId.Some? && e.timestamp.Some? && e.eventType.Some? && !e.eventType.value.Other?
    && (MovesMoney(e) ==> Positive(e.price) && Positive(e.quantity))
  }

  /** A routed event meets the documented contract exactly when its amounts are positive, which routing never checks. */
  lemma RoutedMeetsContractExactly(e: Event)
    requires TopicFor(e).Ok?
    ensures MeetsContract(e) <==> (MovesMoney(e) ==> 0 < e.price.value && 0 < e.quantity.value)
  {
    RoutedExactly(e);
  }

  /**
    An event that meets the documented contract is routed exactly when its purchase or refund names user and
    product.
   */
  lemma MeetingContractRoutedExactly(e: Event)
    requires MeetsContract(e)
    ensures TopicFor(e).Ok? <==> (MovesMoney(e) ==> e.userId.Some? && e.productId.Some?)
  {
    RoutedExactly(e);
  }
}
