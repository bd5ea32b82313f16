/**
  The stateful event simulator.  Random choices are the fields of a Draw, and a fresh 128-bit id is
  the number of the step that makes it: one step makes at most one id of each kind.
 */
module Simulator {
  import opened Options
  import opened Contracts

  datatype Product = Product(productId: int, category: string, price: int)

  datatype Sim = Sim(
    products: map<int, Product>,
    carts: map<int, seq<int>>,
    purchases: seq<Event>,
    sessions: map<int, Id>,
    step: nat)

  // What chance and the clock contribute to one event.
  datatype Draw = Draw(
    user: int, product: int, cartUser: int, refundIndex: nat, quantity: int,
    relogin: bool, now: int, country: string, attributes: string)

  predicate GoodCatalogue(products: map<int, Product>) {
    forall p | p in products :: 1 <= p && products[p].productId == p && 0 < products[p].price
  }

  function CartOf(carts: map<int, seq<int>>, user: int): seq<int> {
    if user in carts then carts[user] else []
  }

  function Candidates(carts: map<int, seq<int>>): set<int> {
    set u | u in carts && carts[u] != []
  }

  predicate Possible(s: Sim, d: Draw) {
    && 1 <= d.user && d.product in s.products && 1 <= d.quantity <= 3
    && (Candidates(s.carts) != {} ==> d.cartUser in Candidates(s.carts))
    && (s.purchases != [] ==> d.refundIndex < |s.purchases|)
  }

  // ---------------------------------------------------------------- one event, column by column

  /** A refund asked for when nothing is outstanding turns into the purchase that it would need. */
  function Actual(s: Sim, kind: EventType): EventType {
    if kind.Refund? && s.purchases == [] then Purchase else kind
  }

  // Whose cart, if any, a purchase or removal takes from, and which product it concerns.
  function Shopper(s: Sim, d: Draw): int {
    if Candidates(s.carts) != {} then d.cartUser else d.user
  }

  function Taken(s: Sim, d: Draw): int {
    var cart := CartOf(s.carts, Shopper(s, d));
    if cart != [] then cart[|cart| - 1] else d.product
  }

  function CartsTaken(s: Sim, d: Draw): map<int, seq<int>> {
    var user := Shopper(s, d);
    var cart := CartOf(s.carts, user);
    if cart != [] then s.carts[user := cart[..|cart| - 1]] else s.carts
  }

  /** The carts and the outstanding purchases hold only what the handlers can look up. */
  predicate Consistent(s: Sim) {
    && GoodCatalogue(s.products)
    && (forall u, i | u in s.carts && 0 <= i < |s.carts[u]| :: s.carts[u][i] in s.products)
    && (forall k | 0 <= k < |s.purchases| ::
          && s.purchases[k].userId.Some? && s.purchases[k].productId.Some?
          && s.purchases[k].productId.value in s.products)
  }

  predicate Callable(s: Sim, kind: EventType, d: Draw) {
    Consistent(s) && Possible(s, d) && !kind.Other? && kind == Actual(s, kind)
  }

  function UserOf(s: Sim, kind: EventType, d: Draw): Option<int>
    requires Callable(s, kind, d)
  {
    match kind
    case InventoryUpdate => None
    case RemoveFromCart => Some(Shopper(s, d))
    case Purchase => Some(Shopper(s, d))
    case Refund => s.purchases[d.refundIndex].userId
    case _ => Some(d.user)
  }

  function ProductOf(s: Sim, kind: EventType, d: Draw): (p: Option<int>)
    requires Callable(s, kind, d)
    ensures p.Some? ==> p.value in s.products
  {
    match kind
    case PageView => None
    case Search => None
    case UserLogin => None
    case RemoveFromCart => Some(Taken(s, d))
    case Purchase => Some(Taken(s, d))
    case Refund => s.purchases[d.refundIndex].productId
    case _ => Some(d.product)
  }

  function QuantityOf(s: Sim, kind: EventType, d: Draw): Option<int>
    requires Callable(s, kind, d)
  {
    match kind
    case AddToCart => Some(d.quantity)
    case Purchase => Some(d.quantity)
    case Refund => s.purchases[d.refundIndex].quantity
    case _ => None
  }

  function CartsAfter(s: Sim, kind: EventType, d: Draw): map<int, seq<int>> {
    match kind
    case AddToCart => s.carts[d.user := CartOf(s.carts, d.user) + [d.product]]
    case RemoveFromCart => CartsTaken(s, d)
    case Purchase => CartsTaken(s, d)
    case _ => s.carts
  }

  /** A login may replace the session; any event with a user opens one if there is none. */
  function SessionsAfter(s: Sim, kind: EventType, d: Draw): (sessions: map<int, Id>)
    requires Callable(s, kind, d)
    ensures UserOf(s, kind, d).Some? ==> UserOf(s, kind, d).value in sessions
  {
    var user := UserOf(s, kind, d);
    if user.None? || (user.value in s.sessions && !(kind.UserLogin? && d.relogin)) then s.sessions
    else s.sessions[user.value := s.step]
  }

  function Emitted(s: Sim, kind: EventType, d: Draw): Event
    requires Callable(s, kind, d)
  {
    var user, product := UserOf(s, kind, d), ProductOf(s, kind, d);
    Event(
      eventId := Some(s.step), eventType := Some(kind), timestamp := Some(d.now),
      userId := user,
      sessionId := if user.None? then None else Some(SessionsAfter(s, kind, d)[user.value]),
      productId := product,
      category := if product.None? then None else Some(s.products[product.value].category),
      price := if product.None? then None else Some(s.products[product.value].price),
      quantity := QuantityOf(s, kind, d),
      orderId := if kind.Purchase? then Some(s.step)
                 else if kind.Refund? then s.purchases[d.refundIndex].orderId else None,
      refundId := if kind.Refund? then Some(s.step) else None,
      country := if user.None? then None else Some(d.country),
      attributes := d.attributes)
  }

  function PurchasesAfter(s: Sim, kind: EventType, d: Draw): seq<Event>
    requires Callable(s, kind, d)
  {
    match kind
    case Purchase => s.purchases + [Emitted(s, kind, d)]
    case Refund => s.purchases[..d.refundIndex] + s.purchases[d.refundIndex + 1..]
    case _ => s.purchases
  }

  function After(s: Sim, kind: EventType, d: Draw): Sim
    requires Callable(s, kind, d)
  {
    Sim(s.products, CartsAfter(s, kind, d), PurchasesAfter(s, kind, d), SessionsAfter(s, kind, d), s.step + 1)
  }

  // ---------------------------------------------------------------- the factory object

  class EventFactory {
    const products: map<int, Product>
    var carts: map<int, seq<int>>
    var purchases: seq<Event>
    var sessions: map<int, Id>
    var nextId: nat

    function View(): Sim
      reads this
    {
      Sim(products, carts, purchases, sessions, nextId)
    }

    /** The catalogue is built product by product, from 1 up, and never changed afterwards. */
    constructor (categories: seq<string>, prices: seq<int>)
      requires |categories| == |prices| > 0 && forall i | 0 <= i < |prices| :: 0 < prices[i]
      ensures View() == Sim(products, map[], [], map[], 0) && Consistent(View())
      ensures forall p :: p in products <==> 1 <= p <= |prices|
      ensures forall i | 0 <= i < |prices| ::
                i + 1 in products && products[i + 1] == Product(i + 1, categories[i], prices[i])
    {
      var built: map<int, Product> := map[];
      for i := 0 to |prices|
        invariant forall p :: p in built <==> 1 <= p <= i
        invariant forall p | p in built :: built[p] == Product(p, categories[p - 1], prices[p - 1])
      {
        built := built[i + 1 := Product(i + 1, categories[i], prices[i])];
      }
      products := built;
      carts, purchases, sessions, nextId := map[], [], map[], 0;
      assert forall p | p in built :: (p - 1) + 1 == p;
    }

    /** The envelope of an event: a session is opened for a user that has none. */
    method MakeEnvelope(kind: EventType, user: Option<int>, d: Draw) returns (e: Event)
      modifies `sessions
      ensures sessions == if user.None? || user.value in old(sessions) then old(sessions)
                          else old(sessions)[user.value := nextId]
      ensures e == Event(
                     eventId := Some(nextId), eventType := Some(kind), timestamp := Some(d.now), userId := user,
                     sessionId := if user.None? then None else Some(sessions[user.value]),
                     country := if user.None? then None else Some(d.country), attributes := d.attributes)
    {
      e := Event(
        eventId := Some(nextId), eventType := Some(kind), timestamp := Some(d.now), attributes := d.attributes);
      if user.Some? {
        if user.value !in sessions {
          sessions := sessions[user.value := nextId];
        }
        e := e.(userId := user, sessionId := Some(sessions[user.value]), country := Some(d.country));
      }
    }

    function WithProduct(e: Event, product: int): Event
      requires product in products
    {
      e.(productId := Some(product), category := Some(products[product].category),
         price := Some(products[product].price))
    }

    // Pops the latest product of the shopper's cart, or falls back to a random one.
    method Take(d: Draw) returns (user: int, product: int)
      requires Possible(View(), d)
      modifies `carts
      ensures user == Shopper(old(View()), d) && product == Taken(old(View()), d)
      ensures carts == CartsTaken(old(View()), d)
    {
      user := if Candidates(carts) != {} then d.cartUser else d.user;
      if user in carts && carts[user] != [] {
        var cart := carts[user];
        product := cart[|cart| - 1];
        carts := carts[user := cart[..|cart| - 1]];
      } else {
        product := d.product;
      }
    }

    // What each handler does: its event and the three tables, all but the id counter.
    twostate predicate Made(e: Event, kind: EventType, d: Draw)
      reads this
    {
      && Callable(old(View()), kind, d)
      && e == Emitted(old(View()), kind, d)
      && carts == CartsAfter(old(View()), kind, d)
      && sessions == SessionsAfter(old(View()), kind, d)
      && purchases == PurchasesAfter(old(View()), kind, d)
      && nextId == old(nextId)
    }

    method MakeAddToCart(d: Draw) returns (e: Event)
      requires Callable(View(), AddToCart, d)
      modifies this
      ensures Made(e, AddToCart, d)
    {
      carts := carts[d.user := CartOf(carts, d.user) + [d.product]];
      e := MakeEnvelope(AddToCart, Some(d.user), d);
      e := WithProduct(e, d.product).(quantity := Some(d.quantity));
    }

    method MakeRemoveFromCart(d: Draw) returns (e: Event)
      requires Callable(View(), RemoveFromCart, d)
      modifies this
      ensures Made(e, RemoveFromCart, d)
    {
      var user, product := Take(d);
      e := MakeEnvelope(RemoveFromCart, Some(user), d);
      e := WithProduct(e, product);
    }

    method MakePurchase(d: Draw) returns (e: Event)
      requires Callable(View(), Purchase, d)
      modifies this
      ensures Made(e, Purchase, d)
    {
      var user, product := Take(d);
      e := MakeEnvelope(Purchase, Some(user), d);
      e := WithProduct(e, product).(orderId := Some(nextId), quantity := Some(d.quantity));
      purchases := purchases + [e];
    }

    method MakeRefund(d: Draw) returns (e: Event)
      requires Consistent(View()) && Possible(View(), d)
      modifies this
      ensures Made(e, Actual(old(View()), Refund), d)
    {
      if purchases == [] {
        e := MakePurchase(d);
        return;
      }
      var bought := purchases[d.refundIndex];
      purchases := purchases[..d.refundIndex] + purchases[d.refundIndex + 1..];
      e := MakeEnvelope(Refund, bought.userId, d);
      e := WithProduct(e, bought.productId.value).(
        orderId := bought.orderId, refundId := Some(nextId), quantity := bought.quantity);
    }

    method MakeUserLogin(d: Draw) returns (e: Event)
      requires Callable(View(), UserLogin, d)
      modifies this
      ensures Made(e, UserLogin, d)
    {
      if d.relogin {
        sessions := sessions[d.user := nextId];
      }
      e := MakeEnvelope(UserLogin, Some(d.user), d);
    }

    // The handlers that touch no cart and no purchase: views, searches, reviews, inventory.
    method MakeBrowsing(kind: EventType, d: Draw) returns (e: Event)
      requires kind in {PageView, Search, ProductView, ProductReview, InventoryUpdate}
      requires Callable(View(), kind, d)
      modifies this
      ensures Made(e, kind, d)
    {
      e := MakeEnvelope(kind, if kind.InventoryUpdate? then None else Some(d.user), d);
      if kind in {ProductView, ProductReview, InventoryUpdate} {
        e := WithProduct(e, d.product);
      }
    }

    /** One event of the requested kind; an unsupported kind is refused and changes nothing. */
    method Make(kind: EventType, d: Draw) returns (r: Result<Event, string>)
      requires Consistent(View()) && Possible(View(), d)
      modifies this
      ensures kind.Other? ==> r.Err? && View() == old(View())
      ensures !kind.Other? ==>
                var actual := Actual(old(View()), kind);
                r == Ok(Emitted(old(View()), actual, d)) && View() == After(old(View()), actual, d)
    {
      var e: Event;
      match kind {
        case Other(name) => return Err(name);
        case AddToCart => e := MakeAddToCart(d);
        case RemoveFromCart => e := MakeRemoveFromCart(d);
        case Purchase => e := MakePurchase(d);
        case Refund => e := MakeRefund(d);
        case UserLogin => e := MakeUserLogin(d);
        case _ => e := MakeBrowsing(kind, d);
      }
      nextId := nextId + 1;
      return Ok(e);
    }
  }
}
