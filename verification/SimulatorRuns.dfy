/** What every run of the simulator keeps: sessions, prices, purchases and refunds, carts. */
module SimulatorRuns {
  import opened Options
  import opened Contracts
  import opened Simulator

  datatype Call = Call(kind: EventType, draw: Draw)

  // The state of the factory together with everything it has emitted, oldest first.
  datatype World = World(sim: Sim, emitted: seq<Event>)

  predicate MayCall(s: Sim, c: Call) {
    Consistent(s) && Possible(s, c.draw) && !c.kind.Other?
  }

  // The event that a call makes, and the state it leaves.
  function EventOf(s: Sim, c: Call): Event
    requires MayCall(s, c)
  {
    Emitted(s, Actual(s, c.kind), c.draw)
  }

  function StateOf(s: Sim, c: Call): Sim
    requires MayCall(s, c)
  {
    After(s, Actual(s, c.kind), c.draw)
  }

  function Next(w: World, c: Call): World
    requires MayCall(w.sim, c)
  {
    World(StateOf(w.sim, c), w.emitted + [EventOf(w.sim, c)])
  }

  function NewWorld(products: map<int, Product>): World { World(Sim(products, map[], [], map[], 0), []) }

  /** The calls can be made one after the other on a new factory with this catalogue. */
  predicate Legal(products: map<int, Product>, calls: seq<Call>)
    decreases |calls|, 0
  {
    if calls == [] then GoodCatalogue(products)
    else
      var before := calls[..|calls| - 1];
      Legal(products, before) && MayCall(RunOf(products, before).sim, calls[|calls| - 1])
  }

  function RunOf(products: map<int, Product>, calls: seq<Call>): World
    requires Legal(products, calls)
    decreases |calls|, 1
  {
    if calls == [] then NewWorld(products)
    else Next(RunOf(products, calls[..|calls| - 1]), calls[|calls| - 1])
  }

  // ---------------------------------------------------------------- purchases and refunds

  predicate PurchasedAt(emitted: seq<Event>, i: int) {
    0 <= i < |emitted| && Is(emitted[i], Purchase)
  }

  // Some refund of this order has been emitted.
  ghost predicate Refunded(emitted: seq<Event>, order: Id) {
    exists j :: 0 <= j < |emitted| && Is(emitted[j], Refund) && emitted[j].orderId == Some(order)
  }

  /** The refund gives back exactly the purchase that was emitted at position i. */
  predicate GivesBack(r: Event, emitted: seq<Event>, i: nat) {
    && PurchasedAt(emitted, i)
    && var p := emitted[i];
       && r.orderId == p.orderId == Some(i)
       && r.userId == p.userId && r.productId == p.productId && r.price == p.price && r.quantity == p.quantity
  }

  ghost predicate IsOutstanding(purchases: seq<Event>, i: nat) {
    exists k :: 0 <= k < |purchases| && purchases[k].eventId == Some(i)
  }

  predicate OutstandingEntry(emitted: seq<Event>, p: Event) {
    p.eventId.Some? && PurchasedAt(emitted, p.eventId.value) && p == emitted[p.eventId.value]
  }

  ghost predicate RefundedOnce(emitted: seq<Event>) {
    forall i, j | 0 <= i < j < |emitted| && Is(emitted[i], Refund) && Is(emitted[j], Refund) ::
      emitted[i].orderId != emitted[j].orderId
  }

  /**
    The purchase at i has order id i, so order ids are distinct; the outstanding purchases are
    emitted purchases, each once; every refund gives back one earlier purchase; no order is refunded
    twice; and a purchase is outstanding exactly when it has not been refunded.
   */
  ghost predicate Ledger(emitted: seq<Event>, purchases: seq<Event>) {
    && (forall i | PurchasedAt(emitted, i) :: emitted[i].orderId == Some(i))
    && (forall k | 0 <= k < |purchases| :: OutstandingEntry(emitted, purchases[k]))
    && (forall k, l | 0 <= k < l < |purchases| :: purchases[k].eventId != purchases[l].eventId)
    && (forall j | 0 <= j < |emitted| && Is(emitted[j], Refund) ::
          emitted[j].orderId.Some? && GivesBack(emitted[j], emitted[..j], emitted[j].orderId.value))
    && RefundedOnce(emitted)
    && (forall i: nat | PurchasedAt(emitted, i) :: IsOutstanding(purchases, i) <==> !Refunded(emitted, i))
  }

  lemma RefundedAppend(emitted: seq<Event>, e: Event, order: Id)
    ensures Refunded(emitted + [e], order) <==> Refunded(emitted, order) || (Is(e, Refund) && e.orderId == Some(order))
  {
    var longer := emitted + [e];
    if Refunded(emitted, order) {
      var j :| 0 <= j < |emitted| && Is(emitted[j], Refund) && emitted[j].orderId == Some(order);
      assert longer[j] == emitted[j];
    }
    if Is(e, Refund) && e.orderId == Some(order) { assert longer[|emitted|] == e; }
  }

  lemma LedgerBuy(emitted: seq<Event>, purchases: seq<Event>, e: Event)
    requires Ledger(emitted, purchases) && Is(e, Purchase) && e.eventId == e.orderId == Some(|emitted|)
    ensures Ledger(emitted + [e], purchases + [e])
  {
    var all, kept := emitted + [e], purchases + [e];
    LedgerRefundsStay(emitted, purchases, e);
    forall i: nat | PurchasedAt(all, i) ensures IsOutstanding(kept, i) <==> !Refunded(all, i) {
      RefundedAppend(emitted, e, i);
      if i == |emitted| {
        assert kept[|purchases|].eventId == Some(i);
        NotYetRefunded(emitted, purchases, i);
      } else {
        assert PurchasedAt(emitted, i);
        if IsOutstanding(purchases, i) {
          var k :| 0 <= k < |purchases| && purchases[k].eventId == Some(i);
          assert kept[k].eventId == Some(i);
        }
      }
    }
  }

  // No refund names an order that has not been placed.
  lemma NotYetRefunded(emitted: seq<Event>, purchases: seq<Event>, order: Id)
    requires Ledger(emitted, purchases) && |emitted| <= order
    ensures !Refunded(emitted, order)
  {
  }

  lemma LedgerRefundsStay(emitted: seq<Event>, purchases: seq<Event>, e: Event)
    requires Ledger(emitted, purchases) && !Is(e, Refund)
    ensures var all := emitted + [e];
            && RefundedOnce(all)
            && forall j | 0 <= j < |all| && Is(all[j], Refund) ::
                 all[j].orderId.Some? && GivesBack(all[j], all[..j], all[j].orderId.value)
  {
  }

  lemma LedgerSkip(emitted: seq<Event>, purchases: seq<Event>, e: Event)
    requires Ledger(emitted, purchases) && !Is(e, Purchase) && !Is(e, Refund)
    ensures Ledger(emitted + [e], purchases)
  {
    LedgerRefundsStay(emitted, purchases, e);
    forall i: nat | PurchasedAt(emitted + [e], i) ensures IsOutstanding(purchases, i) <==> !Refunded(emitted + [e], i) {
      RefundedAppend(emitted, e, i);
      assert PurchasedAt(emitted, i);
    }
  }

  lemma LedgerRefund(emitted: seq<Event>, purchases: seq<Event>, k: nat, e: Event)
    requires Ledger(emitted, purchases) && k < |purchases| && Is(e, Refund)
    requires purchases[k].eventId.Some? && GivesBack(e, emitted, purchases[k].eventId.value)
    ensures Ledger(emitted + [e], purchases[..k] + purchases[k + 1..])
  {
    var all, left := emitted + [e], purchases[..k] + purchases[k + 1..];
    var order := purchases[k].eventId.value;
    assert OutstandingEntry(emitted, purchases[k]);
    assert IsOutstanding(purchases, order) && !Refunded(emitted, order);
    forall l | 0 <= l < |left| ensures left[l] == purchases[if l < k then l else l + 1] {}
    forall j | 0 <= j < |all| && Is(all[j], Refund)
      ensures all[j].orderId.Some? && GivesBack(all[j], all[..j], all[j].orderId.value)
    {
      assert all[..j] == emitted[..j];
      if j == |emitted| { assert emitted[..j] == emitted; }
    }
    forall i: nat | PurchasedAt(all, i) ensures IsOutstanding(left, i) <==> !Refunded(all, i) {
      RefundedAppend(emitted, e, i);
      assert PurchasedAt(emitted, i);
      LeftWithout(purchases, k, i);
    }
  }

  lemma LeftWithout(purchases: seq<Event>, k: nat, i: nat)
    requires k < |purchases|
    requires forall a, b | 0 <= a < b < |purchases| :: purchases[a].eventId != purchases[b].eventId
    ensures IsOutstanding(purchases[..k] + purchases[k + 1..], i) <==>
            IsOutstanding(purchases, i) && purchases[k].eventId != Some(i)
  {
    var left := purchases[..k] + purchases[k + 1..];
    if IsOutstanding(left, i) {
      var l :| 0 <= l < |left| && left[l].eventId == Some(i);
      assert purchases[if l < k then l else l + 1].eventId == Some(i);
    }
    if IsOutstanding(purchases, i) && purchases[k].eventId != Some(i) {
      var l :| 0 <= l < |purchases| && purchases[l].eventId == Some(i);
      assert left[if l < k then l else l - 1].eventId == Some(i);
    }
  }

  // ---------------------------------------------------------------- prices

  /** The event is at its position, and carries the catalogue's price for its product. */
  predicate WellPriced(products: map<int, Product>, e: Event, i: nat) {
    && e.eventId == Some(i) && e.eventType.Some? && !e.eventType.value.Other? && e.timestamp.Some?
    && (e.userId.Some? <==> e.sessionId.Some?)
    && (e.productId.Some? ==> e.productId.value in products && e.price == Some(products[e.productId.value].price))
    && (Is(e, Purchase) || Is(e, Refund) ==>
          e.userId.Some? && e.productId.Some? && e.quantity.Some? && 1 <= e.quantity.value <= 3)
  }

  // ---------------------------------------------------------------- sessions

  ghost predicate OneUserPerSession(emitted: seq<Event>) {
    forall i, j | 0 <= i < |emitted| && 0 <= j < |emitted|
                  && emitted[i].sessionId.Some? && emitted[i].sessionId == emitted[j].sessionId ::
      emitted[i].userId == emitted[j].userId
  }

  ghost predicate SessionsOwned(emitted: seq<Event>, sessions: map<int, Id>) {
    && (forall u | u in sessions :: sessions[u] < |emitted|)
    && (forall u, v | u in sessions && v in sessions && sessions[u] == sessions[v] :: u == v)
    && (forall i | 0 <= i < |emitted| && emitted[i].sessionId.Some? :: emitted[i].sessionId.value < |emitted|)
    && (forall i, u | 0 <= i < |emitted| && u in sessions && emitted[i].sessionId == Some(sessions[u]) ::
          emitted[i].userId == Some(u))
    && OneUserPerSession(emitted)
  }

  lemma SessionsAppend(emitted: seq<Event>, earlier: map<int, Id>, sessions: map<int, Id>, e: Event)
    requires SessionsOwned(emitted, earlier)
    requires sessions == earlier || (e.userId.Some? && sessions == earlier[e.userId.value := |emitted|])
    requires e.sessionId.Some? ==>
               e.userId.Some? && e.userId.value in sessions && e.sessionId.value == sessions[e.userId.value]
    ensures SessionsOwned(emitted + [e], sessions)
  {
    var all := emitted + [e];
    forall u, v | u in sessions && v in sessions && sessions[u] == sessions[v] ensures u == v {
      if u in earlier && sessions[u] == earlier[u] && v in earlier && sessions[v] == earlier[v] {}
    }
    forall i, u | 0 <= i < |all| && u in sessions && all[i].sessionId == Some(sessions[u])
      ensures all[i].userId == Some(u)
    {
      if i == |emitted| {
        assert sessions[e.userId.value] == sessions[u];
      } else {
        assert all[i] == emitted[i] && sessions[u] < |emitted|;
        assert u in earlier && earlier[u] == sessions[u];
      }
    }
    forall i, j | 0 <= i < |all| && 0 <= j < |all| && all[i].sessionId.Some? && all[i].sessionId == all[j].sessionId
      ensures all[i].userId == all[j].userId
    {
      if i == |emitted| { assert all[i].sessionId == Some(sessions[e.userId.value]); }
      if j == |emitted| { assert all[j].sessionId == Some(sessions[e.userId.value]); }
    }
  }

  // ---------------------------------------------------------------- carts

  /** A user's cart as the emitted events tell it: additions push, removals and purchases pop the latest. */
  function Replay(emitted: seq<Event>, user: int): seq<int> {
    if emitted == [] then []
    else
      var cart := Replay(emitted[..|emitted| - 1], user);
      var e := emitted[|emitted| - 1];
      if e.userId == Some(user) then CartFollows(cart, e) else cart
  }

  ghost predicate CartsReplay(emitted: seq<Event>, carts: map<int, seq<int>>) {
    forall u :: CartOf(carts, u) == Replay(emitted, u)
  }

  // What one event does to the cart of its user.
  function CartFollows(cart: seq<int>, e: Event): seq<int> {
    if Is(e, AddToCart) && e.productId.Some? then cart + [e.productId.value]
    else if (Is(e, Purchase) || Is(e, RemoveFromCart)) && cart != [] then cart[..|cart| - 1]
    else cart
  }

  /** Each event changes the cart of its own user only: an addition pushes, a purchase or removal pops. */
  lemma CartEffect(s: Sim, c: Call, u: int)
    requires MayCall(s, c)
    ensures var e := EventOf(s, c);
            CartOf(StateOf(s, c).carts, u) ==
              if e.userId == Some(u) then CartFollows(CartOf(s.carts, u), e) else CartOf(s.carts, u)
  {
  }

  lemma CartStep(w: World, c: Call)
    requires CartsReplay(w.emitted, w.sim.carts) && MayCall(w.sim, c)
    ensures CartsReplay(Next(w, c).emitted, Next(w, c).sim.carts)
  {
    var w' := Next(w, c);
    assert w'.emitted[..|w.emitted|] == w.emitted;
    forall u ensures CartOf(w'.sim.carts, u) == Replay(w'.emitted, u) {
      CartEffect(w.sim, c, u);
      assert CartOf(w.sim.carts, u) == Replay(w.emitted, u);
    }
  }

  // ---------------------------------------------------------------- the invariant of every run

  ghost predicate Invariant(products: map<int, Product>, w: World) {
    && GoodCatalogue(products) && w.sim.products == products && Consistent(w.sim)
    && w.sim.step == |w.emitted|
    && (forall i | 0 <= i < |w.emitted| :: WellPriced(products, w.emitted[i], i))
    && Ledger(w.emitted, w.sim.purchases)
    && SessionsOwned(w.emitted, w.sim.sessions)
    && CartsReplay(w.emitted, w.sim.carts)
  }

  lemma InvariantStep(products: map<int, Product>, w: World, c: Call)
    requires Invariant(products, w) && MayCall(w.sim, c)
    ensures Invariant(products, Next(w, c))
  {
    var w' := Next(w, c);
    var e := w'.emitted[|w.emitted|];
    LedgerStep(products, w, c);
    forall i | 0 <= i < |w'.emitted| ensures WellPriced(products, w'.emitted[i], i) {}
    ConsistentStep(products, w, c);
    CartStep(w, c);
    SessionStep(products, w, c);
  }

  lemma SessionEffect(s: Sim, c: Call)
    requires MayCall(s, c)
    ensures var e := EventOf(s, c);
            var sessions := StateOf(s, c).sessions;
            && (sessions == s.sessions || (e.userId.Some? && sessions == s.sessions[e.userId.value := s.step]))
            && (e.sessionId.Some? ==>
                  e.userId.Some? && e.userId.value in sessions && e.sessionId.value == sessions[e.userId.value])
  {
  }

  lemma SessionStep(products: map<int, Product>, w: World, c: Call)
    requires Invariant(products, w) && MayCall(w.sim, c)
    ensures SessionsOwned(Next(w, c).emitted, Next(w, c).sim.sessions)
  {
    SessionEffect(w.sim, c);
    SessionsAppend(w.emitted, w.sim.sessions, Next(w, c).sim.sessions, EventOf(w.sim, c));
  }

  lemma ConsistentStep(products: map<int, Product>, w: World, c: Call)
    requires Invariant(products, w) && MayCall(w.sim, c)
    requires Ledger(Next(w, c).emitted, Next(w, c).sim.purchases)
    requires forall i | 0 <= i < |Next(w, c).emitted| :: WellPriced(products, Next(w, c).emitted[i], i)
    ensures Consistent(Next(w, c).sim)
  {
    var w' := Next(w, c);
    forall u, i | u in w'.sim.carts && 0 <= i < |w'.sim.carts[u]| ensures w'.sim.carts[u][i] in products {
      CartEffect(w.sim, c, u);
      assert w'.sim.carts[u] == CartOf(w'.sim.carts, u);
      assert forall x | x in CartOf(w.sim.carts, u) :: x in products;
    }
    forall k | 0 <= k < |w'.sim.purchases|
      ensures var p := w'.sim.purchases[k]; p.userId.Some? && p.productId.Some? && p.productId.value in products
    {
      assert OutstandingEntry(w'.emitted, w'.sim.purchases[k]);
      assert WellPriced(products, w'.sim.purchases[k], w'.sim.purchases[k].eventId.value);
    }
  }

  lemma PricedStep(products: map<int, Product>, w: World, c: Call)
    requires Invariant(products, w) && MayCall(w.sim, c)
    ensures WellPriced(products, EventOf(w.sim, c), |w.emitted|)
  {
    if c.kind.Refund? && w.sim.purchases != [] {
      var bought := w.sim.purchases[c.draw.refundIndex];
      assert OutstandingEntry(w.emitted, bought);
      assert WellPriced(products, bought, bought.eventId.value);
    }
  }

  lemma LedgerStep(products: map<int, Product>, w: World, c: Call)
    requires Invariant(products, w) && MayCall(w.sim, c)
    ensures Ledger(Next(w, c).emitted, Next(w, c).sim.purchases)
    ensures WellPriced(products, EventOf(w.sim, c), |w.emitted|)
  {
    var e := EventOf(w.sim, c);
    PricedStep(products, w, c);
    if Is(e, Purchase) {
      LedgerBuy(w.emitted, w.sim.purchases, e);
    } else if Is(e, Refund) {
      var k := c.draw.refundIndex;
      var bought := w.sim.purchases[k];
      assert OutstandingEntry(w.emitted, bought);
      assert WellPriced(products, bought, bought.eventId.value);
      LedgerRefund(w.emitted, w.sim.purchases, k, e);
    } else {
      LedgerSkip(w.emitted, w.sim.purchases, e);
    }
  }

  lemma {:induction false} EveryRunKeepsTheInvariant(products: map<int, Product>, calls: seq<Call>)
    requires Legal(products, calls)
    ensures Invariant(products, RunOf(products, calls))
  {
    if calls != [] {
      EveryRunKeepsTheInvariant(products, calls[..|calls| - 1]);
      InvariantStep(products, RunOf(products, calls[..|calls| - 1]), calls[|calls| - 1]);
    }
  }

  // ---------------------------------------------------------------- theorems over whole runs

  function CountOf(emitted: seq<Event>, kind: EventType): nat {
    if emitted == [] then 0
    else CountOf(emitted[..|emitted| - 1], kind) + if Is(emitted[|emitted| - 1], kind) then 1 else 0
  }

  lemma ConservationStep(w: World, c: Call)
    requires MayCall(w.sim, c)
    requires CountOf(w.emitted, Purchase) == |w.sim.purchases| + CountOf(w.emitted, Refund)
    ensures var w' := Next(w, c); CountOf(w'.emitted, Purchase) == |w'.sim.purchases| + CountOf(w'.emitted, Refund)
  {
  }

  /** Emitted purchases are the outstanding ones and the refunded ones, and nothing is lost between them. */
  lemma {:induction false} PurchasesAreConserved(products: map<int, Product>, calls: seq<Call>)
    requires Legal(products, calls)
    ensures var w := RunOf(products, calls);
            && Ledger(w.emitted, w.sim.purchases)
            && CountOf(w.emitted, Purchase) == |w.sim.purchases| + CountOf(w.emitted, Refund)
  {
    EveryRunKeepsTheInvariant(products, calls);
    if calls != [] {
      PurchasesAreConserved(products, calls[..|calls| - 1]);
      ConservationStep(RunOf(products, calls[..|calls| - 1]), calls[|calls| - 1]);
    }
  }

  ghost predicate SomeCartFilled(emitted: seq<Event>) { exists u :: Replay(emitted, u) != [] }

  // The event at i, when it takes from a cart, takes the latest product of a filled one if there is any.
  ghost predicate TakesLatest(emitted: seq<Event>, i: nat)
    requires i < |emitted|
  {
    var e, before := emitted[i], emitted[..i];
    (Is(e, Purchase) || Is(e, RemoveFromCart)) && SomeCartFilled(before) ==>
      e.userId.Some? &&
      var cart := Replay(before, e.userId.value);
      cart != [] && e.productId == Some(cart[|cart| - 1])
  }

  /** The carts are a function of the emitted events, and every taking pops the latest product of a filled cart. */
  lemma {:induction false} CartsFollowTheEvents(products: map<int, Product>, calls: seq<Call>)
    requires Legal(products, calls)
    ensures var w := RunOf(products, calls);
            && CartsReplay(w.emitted, w.sim.carts)
            && forall i | 0 <= i < |w.emitted| :: TakesLatest(w.emitted, i)
  {
    EveryRunKeepsTheInvariant(products, calls);
    if calls != [] {
      var before := calls[..|calls| - 1];
      CartsFollowTheEvents(products, before);
      EveryRunKeepsTheInvariant(products, before);
      TakingStep(RunOf(products, before), calls[|calls| - 1]);
    }
  }

  lemma TakingStep(w: World, c: Call)
    requires CartsReplay(w.emitted, w.sim.carts) && MayCall(w.sim, c)
    requires forall i | 0 <= i < |w.emitted| :: TakesLatest(w.emitted, i)
    ensures forall i | 0 <= i < |Next(w, c).emitted| :: TakesLatest(Next(w, c).emitted, i)
  {
    var longer := Next(w, c).emitted;
    forall i | 0 <= i < |longer| ensures TakesLatest(longer, i) {
      if i < |w.emitted| {
        assert longer[i] == w.emitted[i] && longer[..i] == w.emitted[..i];
        assert TakesLatest(w.emitted, i);
      } else {
        assert longer[..i] == w.emitted;
        if SomeCartFilled(w.emitted) { TakingPopsLatest(w, c); }
      }
    }
  }

  lemma TakingPopsLatest(w: World, c: Call)
    requires CartsReplay(w.emitted, w.sim.carts) && MayCall(w.sim, c) && SomeCartFilled(w.emitted)
    ensures var e := EventOf(w.sim, c);
            Is(e, Purchase) || Is(e, RemoveFromCart) ==>
              e.userId.Some? &&
              var cart := Replay(w.emitted, e.userId.value);
              cart != [] && e.productId == Some(cart[|cart| - 1])
  {
    var u :| Replay(w.emitted, u) != [];
    assert CartOf(w.sim.carts, u) != [] && u in Candidates(w.sim.carts);
    var e := EventOf(w.sim, c);
    if Is(e, Purchase) || Is(e, RemoveFromCart) {
      var shopper := Shopper(w.sim, c.draw);
      assert shopper in Candidates(w.sim.carts);
      assert e.userId == Some(shopper) && CartOf(w.sim.carts, shopper) == Replay(w.emitted, shopper);
    }
  }

  /** A session id belongs to one user throughout a run, across logins and refunds. */
  lemma {:induction false} SessionsBelongToOneUser(products: map<int, Product>, calls: seq<Call>)
    requires Legal(products, calls)
    ensures OneUserPerSession(RunOf(products, calls).emitted)
  {
    EveryRunKeepsTheInvariant(products, calls);
  }

  /** Every simulated event passes the producer contract and is routed by its own type. */
  lemma {:induction false} SimulatedEventsMeetTheContract(products: map<int, Product>, calls: seq<Call>, i: nat)
    requires Legal(products, calls) && i < |RunOf(products, calls).emitted|
    ensures var e := RunOf(products, calls).emitted[i];
            e.eventType.Some? && !e.eventType.value.Other? && TopicFor(e) == Ok(RouteOf(e.eventType.value))
  {
    EveryRunKeepsTheInvariant(products, calls);
    assert WellPriced(products, RunOf(products, calls).emitted[i], i);
  }
}
