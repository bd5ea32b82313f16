/**
  Every emitted event, told by its own call and the events before it alone: the carts, the sessions and the
  outstanding purchases of the factory are what its history says.
 */
module SimulatorHistory {
  import opened Options
  import opened Contracts
  import opened Simulator
  import opened SimulatorRuns

  // ---------------------------------------------------------------- outstanding purchases

  function Without(purchases: seq<Event>, order: Option<Id>): seq<Event> {
    if purchases == [] then []
    else
      var last := purchases[|purchases| - 1];
      Without(purchases[..|purchases| - 1], order) + if last.orderId == order then [] else [last]
  }

  /** The purchases that no later refund has given back, in the order in which they were made. */
  function Outstanding(emitted: seq<Event>): seq<Event> {
    if emitted == [] then []
    else
      var before, e := Outstanding(emitted[..|emitted| - 1]), emitted[|emitted| - 1];
      if Is(e, Purchase) then before + [e] else if Is(e, Refund) then Without(before, e.orderId) else before
  }

  lemma {:induction false} WithoutNone(purchases: seq<Event>, order: Option<Id>)
    requires forall k | 0 <= k < |purchases| :: purchases[k].orderId != order
    ensures Without(purchases, order) == purchases
  {
    if purchases != [] { WithoutNone(purchases[..|purchases| - 1], order); }
  }

  lemma {:induction false} WithoutOne(purchases: seq<Event>, k: nat)
    requires k < |purchases|
    requires forall i, j | 0 <= i < j < |purchases| :: purchases[i].orderId != purchases[j].orderId
    ensures Without(purchases, purchases[k].orderId) == purchases[..k] + purchases[k + 1..]
  {
    var n := |purchases| - 1;
    if k == n {
      WithoutNone(purchases[..n], purchases[k].orderId);
    } else {
      WithoutOne(purchases[..n], k);
      assert purchases[k + 1..] == purchases[..n][k + 1..] + [purchases[n]];
    }
  }

  lemma DistinctOrders(emitted: seq<Event>, purchases: seq<Event>)
    requires Ledger(emitted, purchases)
    ensures forall i, j | 0 <= i < j < |purchases| :: purchases[i].orderId != purchases[j].orderId
  {
    forall i, j | 0 <= i < j < |purchases| ensures purchases[i].orderId != purchases[j].orderId {
      assert OutstandingEntry(emitted, purchases[i]) && OutstandingEntry(emitted, purchases[j]);
    }
  }

  lemma OutstandingStep(products: map<int, Product>, w: World, c: Call)
    requires Invariant(products, w) && MayCall(w.sim, c) && w.sim.purchases == Outstanding(w.emitted)
    ensures Next(w, c).sim.purchases == Outstanding(Next(w, c).emitted)
  {
    var w' := Next(w, c);
    assert w'.emitted[..|w.emitted|] == w.emitted;
    if Is(EventOf(w.sim, c), Refund) {
      DistinctOrders(w.emitted, w.sim.purchases);
      WithoutOne(w.sim.purchases, c.draw.refundIndex);
    }
  }

  // ---------------------------------------------------------------- sessions

  /** The event opens a session: it is its user's first, or a login that was drawn to replace the session. */
  ghost predicate Opens(calls: seq<Call>, emitted: seq<Event>, user: int, j: int) {
    && 0 <= j < |emitted| && j < |calls| && emitted[j].userId == Some(user)
    && ((forall k | 0 <= k < j :: emitted[k].userId != Some(user))
        || (Is(emitted[j], UserLogin) && calls[j].draw.relogin))
  }

  ghost predicate LatestOpening(calls: seq<Call>, emitted: seq<Event>, user: int, j: int) {
    Opens(calls, emitted, user, j) && forall k | j < k < |emitted| :: !Opens(calls, emitted, user, k)
  }

  ghost predicate HasActed(emitted: seq<Event>, user: int) {
    exists i :: 0 <= i < |emitted| && emitted[i].userId == Some(user)
  }

  ghost predicate SessionsTold(calls: seq<Call>, emitted: seq<Event>, sessions: map<int, Id>) {
    && (forall u :: u in sessions <==> HasActed(emitted, u))
    && (forall u | u in sessions :: LatestOpening(calls, emitted, u, sessions[u]))
  }

  lemma ActedAppend(emitted: seq<Event>, e: Event, user: int)
    ensures HasActed(emitted + [e], user) <==> HasActed(emitted, user) || e.userId == Some(user)
  {
    var longer := emitted + [e];
    if HasActed(emitted, user) {
      var i :| 0 <= i < |emitted| && emitted[i].userId == Some(user);
      assert longer[i].userId == Some(user);
    }
    if e.userId == Some(user) { assert longer[|emitted|] == e; }
  }

  lemma OpensAppend(calls: seq<Call>, emitted: seq<Event>, c: Call, e: Event, user: int)
    requires |calls| == |emitted|
    ensures forall j | j < |emitted| ::
              Opens(calls + [c], emitted + [e], user, j) <==> Opens(calls, emitted, user, j)
    ensures Opens(calls + [c], emitted + [e], user, |emitted|) <==>
            e.userId == Some(user) && (!HasActed(emitted, user) || (Is(e, UserLogin) && c.draw.relogin))
  {
    var all, longer := calls + [c], emitted + [e];
    assert longer[|emitted|] == e && all[|emitted|] == c;
    forall j | j < |emitted| ensures Opens(all, longer, user, j) <==> Opens(calls, emitted, user, j) {
      if 0 <= j {
        assert longer[j] == emitted[j] && all[j] == calls[j];
        assert forall k | 0 <= k < j :: longer[k] == emitted[k];
      }
    }
    assert (forall k | 0 <= k < |emitted| :: longer[k].userId != Some(user)) <==> !HasActed(emitted, user) by {
      assert forall k | 0 <= k < |emitted| :: longer[k] == emitted[k];
    }
  }

  // What one call does to the sessions, and which one its event carries.
  lemma SessionOf(s: Sim, c: Call)
    requires MayCall(s, c)
    ensures var e, sessions := EventOf(s, c), StateOf(s, c).sessions;
            && (e.userId.None? ==> sessions == s.sessions && e.sessionId.None?)
            && (e.userId.Some? ==>
                  && sessions == (if e.userId.value in s.sessions && !(Is(e, UserLogin) && c.draw.relogin)
                                  then s.sessions else s.sessions[e.userId.value := s.step])
                  && e.sessionId == Some(sessions[e.userId.value]))
  {
  }

  lemma SessionsStep(w: World, calls: seq<Call>, c: Call)
    requires |calls| == |w.emitted| == w.sim.step && MayCall(w.sim, c)
    requires SessionsTold(calls, w.emitted, w.sim.sessions)
    ensures SessionsTold(calls + [c], Next(w, c).emitted, Next(w, c).sim.sessions)
  {
    var e, sessions := EventOf(w.sim, c), Next(w, c).sim.sessions;
    SessionOf(w.sim, c);
    forall u ensures u in sessions <==> HasActed(Next(w, c).emitted, u) {
      ActedAppend(w.emitted, e, u);
    }
    forall u | u in sessions ensures LatestOpening(calls + [c], Next(w, c).emitted, u, sessions[u]) {
      OpensAppend(calls, w.emitted, c, e, u);
      if u in w.sim.sessions { assert LatestOpening(calls, w.emitted, u, w.sim.sessions[u]); }
    }
  }

  // ---------------------------------------------------------------- one event

  // The product's columns are those of the catalogue, and stay empty without a product.
  predicate CataloguedAs(products: map<int, Product>, e: Event) {
    if e.productId.None? then e.category.None? && e.price.None?
    else
      && e.productId.value in products
      && e.category == Some(products[e.productId.value].category)
      && e.price == Some(products[e.productId.value].price)
  }

  // A purchase or removal: by the drawn user of a filled cart when there is any, of the latest product in it.
  ghost predicate Takes(d: Draw, before: seq<Event>, e: Event) {
    && e.userId == Some(if SomeCartFilled(before) then d.cartUser else d.user)
    && (SomeCartFilled(before) ==> Replay(before, d.cartUser) != [])
    && var cart := Replay(before, e.userId.value);
       e.productId == Some(if cart != [] then cart[|cart| - 1] else d.product)
  }

  predicate RefundsAll(e: Event, bought: Event) {
    && e.userId == bought.userId && e.productId == bought.productId
    && e.quantity == bought.quantity && e.orderId == bought.orderId
  }

  /** What a call asks for: a refund of nothing is a purchase. */
  function Requested(kind: EventType, before: seq<Event>): EventType {
    if kind == Refund && Outstanding(before) == [] then Purchase else kind
  }

  /** The event, column by column but for its session, as its call and the events before it explain it. */
  ghost predicate Explained(products: map<int, Product>, c: Call, before: seq<Event>, e: Event) {
    var d, kind := c.draw, Requested(c.kind, before);
    && e.eventId == Some(|before|) && e.eventType == Some(kind)
    && e.timestamp == Some(d.now) && e.attributes == d.attributes
    && e.country == (if e.userId.Some? then Some(d.country) else None)
    && e.refundId == (if kind == Refund then Some(|before|) else None)
    && CataloguedAs(products, e)
    && (kind != Purchase && kind != Refund ==> e.orderId.None?)
    && (kind !in {AddToCart, Purchase, Refund} ==> e.quantity.None?)
    && match kind
       case Purchase => Takes(d, before, e) && e.orderId == Some(|before|) && e.quantity == Some(d.quantity)
       case Refund =>
         d.refundIndex < |Outstanding(before)| && RefundsAll(e, Outstanding(before)[d.refundIndex])
       case RemoveFromCart => Takes(d, before, e)
       case AddToCart =>
         e.userId == Some(d.user) && e.productId == Some(d.product) && e.quantity == Some(d.quantity)
       case InventoryUpdate => e.userId.None? && e.productId == Some(d.product)
       case ProductView => e.userId == Some(d.user) && e.productId == Some(d.product)
       case ProductReview => e.userId == Some(d.user) && e.productId == Some(d.product)
       case _ => e.userId == Some(d.user) && e.productId.None?
  }

  lemma {:induction false} FilledExactly(emitted: seq<Event>, carts: map<int, seq<int>>)
    requires CartsReplay(emitted, carts)
    ensures SomeCartFilled(emitted) <==> Candidates(carts) != {}
    ensures forall u | u in Candidates(carts) :: Replay(emitted, u) != []
  {
    forall u | u in Candidates(carts) ensures Replay(emitted, u) != [] {
      assert CartOf(carts, u) == Replay(emitted, u);
    }
    if !SomeCartFilled(emitted) {
      assert forall u :: u !in Candidates(carts);
      assert Candidates(carts) == {};
    }
    if u :| Replay(emitted, u) != [] {
      assert CartOf(carts, u) == Replay(emitted, u);
      assert u in Candidates(carts);
    }
  }

  lemma TakingExplained(w: World, c: Call)
    requires CartsReplay(w.emitted, w.sim.carts) && MayCall(w.sim, c)
    requires EventOf(w.sim, c).eventType in {Some(Purchase), Some(RemoveFromCart)}
    ensures Takes(c.draw, w.emitted, EventOf(w.sim, c))
  {
    FilledExactly(w.emitted, w.sim.carts);
    var shopper := Shopper(w.sim, c.draw);
    assert CartOf(w.sim.carts, shopper) == Replay(w.emitted, shopper);
  }

  lemma EventExplained(products: map<int, Product>, w: World, c: Call)
    requires Invariant(products, w) && MayCall(w.sim, c) && w.sim.purchases == Outstanding(w.emitted)
    ensures Explained(products, c, w.emitted, EventOf(w.sim, c))
  {
    var e := EventOf(w.sim, c);
    if e.eventType in {Some(Purchase), Some(RemoveFromCart)} { TakingExplained(w, c); }
  }

  // ---------------------------------------------------------------- theorems over whole runs

  // The factory's tables are what its history says.
  ghost predicate Told(products: map<int, Product>, calls: seq<Call>, w: World) {
    && Invariant(products, w) && |w.emitted| == |calls|
    && w.sim.purchases == Outstanding(w.emitted)
    && SessionsTold(calls, w.emitted, w.sim.sessions)
  }

  lemma ToldStep(products: map<int, Product>, calls: seq<Call>, w: World, c: Call)
    requires Told(products, calls, w) && MayCall(w.sim, c)
    ensures Told(products, calls + [c], Next(w, c))
  {
    InvariantStep(products, w, c);
    OutstandingStep(products, w, c);
    SessionsStep(w, calls, c);
  }

  lemma {:induction false} LastStep(products: map<int, Product>, calls: seq<Call>)
    requires Legal(products, calls) && calls != []
    ensures var n := |calls| - 1;
            && Legal(products, calls[..n]) && MayCall(RunOf(products, calls[..n]).sim, calls[n])
            && RunOf(products, calls) == Next(RunOf(products, calls[..n]), calls[n])
  {
  }

  lemma ToldNext(products: map<int, Product>, calls: seq<Call>, w: World)
    requires calls != [] && MayCall(w.sim, calls[|calls| - 1]) && Told(products, calls[..|calls| - 1], w)
    ensures Told(products, calls, Next(w, calls[|calls| - 1]))
  {
    var n := |calls| - 1;
    assert calls[..n] + [calls[n]] == calls;
    ToldStep(products, calls[..n], w, calls[n]);
  }

  lemma {:induction false} EveryRunIsTold(products: map<int, Product>, calls: seq<Call>)
    requires Legal(products, calls)
    ensures Told(products, calls, RunOf(products, calls))
  {
    if calls == [] {
      EveryRunKeepsTheInvariant(products, calls);
    } else {
      var n := |calls| - 1;
      LastStep(products, calls);
      EveryRunIsTold(products, calls[..n]);
      ToldNext(products, calls, RunOf(products, calls[..n]));
    }
  }

  lemma {:induction false} OneEventPerCall(products: map<int, Product>, calls: seq<Call>)
    requires Legal(products, calls)
    ensures |RunOf(products, calls).emitted| == |calls|
  {
    if calls != [] { OneEventPerCall(products, calls[..|calls| - 1]); }
  }

  lemma PrefixOf(all: seq<Event>, before: seq<Event>, n: nat)
    requires |all| == |before| + 1 && all[..|before|] == before && n <= |before|
    ensures all[..n] == before[..n]
  {
  }

  lemma {:induction false} LegalPrefix(products: map<int, Product>, calls: seq<Call>, n: nat)
    requires Legal(products, calls) && n <= |calls| == |RunOf(products, calls).emitted|
    ensures Legal(products, calls[..n])
    ensures RunOf(products, calls[..n]).emitted == RunOf(products, calls).emitted[..n]
    decreases |calls|
  {
    if n == |calls| {
      assert calls[..n] == calls;
    } else {
      var before := calls[..|calls| - 1];
      assert before[..n] == calls[..n];
      LastStep(products, calls);
      PrefixOf(RunOf(products, calls).emitted, RunOf(products, before).emitted, n);
      LegalPrefix(products, before, n);
    }
  }

  // The step that made the event at i.
  lemma {:induction false} StepAt(products: map<int, Product>, calls: seq<Call>, i: nat) returns (w: World)
    requires Legal(products, calls) && i < |calls|
    ensures Told(products, calls[..i], w) && MayCall(w.sim, calls[i])
    ensures var emitted := RunOf(products, calls).emitted;
            && |emitted| == |calls| && emitted[..i] == w.emitted && emitted[i] == EventOf(w.sim, calls[i])
            && Next(w, calls[i]).emitted == emitted[..i + 1]
  {
    OneEventPerCall(products, calls);
    LegalPrefix(products, calls, i + 1);
    var upTo := calls[..i + 1];
    LastStep(products, upTo);
    assert upTo[..i] == calls[..i] && upTo[i] == calls[i];
    EveryRunIsTold(products, calls[..i]);
    w := RunOf(products, calls[..i]);
    EmittedOne(w, calls[i], RunOf(products, calls).emitted, i);
  }

  lemma EmittedOne(w: World, c: Call, emitted: seq<Event>, i: nat)
    requires MayCall(w.sim, c) && |w.emitted| == i < |emitted| && Next(w, c).emitted == emitted[..i + 1]
    ensures emitted[..i] == w.emitted && emitted[i] == EventOf(w.sim, c)
  {
    assert emitted[i] == emitted[..i + 1][i];
    assert emitted[..i] == emitted[..i + 1][..i];
  }

  /** Every call makes one event, and every event is explained by its call and the events before it. */
  lemma {:induction false} EventsAreExplained(products: map<int, Product>, calls: seq<Call>, i: nat)
    requires Legal(products, calls) && i < |calls|
    ensures var emitted := RunOf(products, calls).emitted;
            |emitted| == |calls| && Explained(products, calls[i], emitted[..i], emitted[i])
  {
    var w := StepAt(products, calls, i);
    EventExplained(products, w, calls[i]);
  }

  // The event of a user carries the number of that user's latest opening; no other event carries a session.
  ghost predicate CarriesLatest(calls: seq<Call>, emitted: seq<Event>, e: Event) {
    && (e.sessionId.Some? <==> e.userId.Some?)
    && (e.userId.Some? ==> LatestOpening(calls, emitted, e.userId.value, e.sessionId.value))
  }

  /** Every event of a user carries the number of that user's latest opening, its own when it is one itself. */
  lemma {:induction false} SessionsFollowTheCalls(products: map<int, Product>, calls: seq<Call>, i: nat)
    requires Legal(products, calls) && i < |calls|
    ensures var emitted := RunOf(products, calls).emitted;
            |emitted| == |calls| && CarriesLatest(calls[..i + 1], emitted[..i + 1], emitted[i])
  {
    var w := StepAt(products, calls, i);
    CarriesAt(calls, RunOf(products, calls).emitted, w, i);
  }

  lemma CarriesAt(calls: seq<Call>, emitted: seq<Event>, w: World, i: nat)
    requires i < |calls| == |emitted| && |w.emitted| == w.sim.step == i && MayCall(w.sim, calls[i])
    requires SessionsTold(calls[..i], w.emitted, w.sim.sessions)
    requires emitted[..i + 1] == Next(w, calls[i]).emitted && emitted[i] == EventOf(w.sim, calls[i])
    ensures CarriesLatest(calls[..i + 1], emitted[..i + 1], emitted[i])
  {
    assert calls[..i] + [calls[i]] == calls[..i + 1];
    StepCarriesLatest(calls[..i], w, calls[i]);
  }

  lemma StepCarriesLatest(calls: seq<Call>, w: World, c: Call)
    requires |calls| == |w.emitted| == w.sim.step && MayCall(w.sim, c)
    requires SessionsTold(calls, w.emitted, w.sim.sessions)
    ensures CarriesLatest(calls + [c], Next(w, c).emitted, EventOf(w.sim, c))
  {
    SessionsStep(w, calls, c);
    SessionOf(w.sim, c);
  }

  /** A login drawn to replace the session carries one that no event before it has. */
  lemma {:induction false} ReloginIsFresh(products: map<int, Product>, calls: seq<Call>, i: nat, j: nat)
    requires Legal(products, calls) && j < i < |calls|
    requires calls[i].kind == UserLogin && calls[i].draw.relogin
    ensures var emitted := RunOf(products, calls).emitted;
            |emitted| == |calls| && emitted[i].sessionId == Some(i) && emitted[j].sessionId != Some(i)
  {
    EventsAreExplained(products, calls, i);
    SessionsFollowTheCalls(products, calls, i);
    SessionsFollowTheCalls(products, calls, j);
    var emitted := RunOf(products, calls).emitted;
    var user := emitted[i].userId.value;
    assert Opens(calls[..i + 1], emitted[..i + 1], user, i);
  }
}
