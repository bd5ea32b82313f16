/** Crashed and repeated attempts converge, and the final Silver state is a function of the Bronze rows. */
module SilverReplay {
  import opened Options
  import opened Contracts
  import opened Silver

  /** The content contract on one batch: an event id names one content. */
  ghost predicate OneContentPerId(batch: seq<BronzeRow>) {
    forall r, q | r in batch && q in batch && r.event.eventId.Some? && r.event.eventId == q.event.eventId ::
      r.event == q.event
  }

  /** No row's timestamp falls between the given clock and any reading of the attempt. */
  ghost predicate Stable(a: Attempt, batch: seq<BronzeRow>, now: int) {
    forall k, r | 0 <= k < |a.clocks| && r in batch :: Classify(r.event, a.clocks[k]) == Classify(r.event, now)
  }

  ghost predicate StableAttempt(a: Attempt, batch: seq<BronzeRow>, now: int) {
    IsAttempt(a, batch) && Stable(a, batch, now)
  }

  lemma StablePick(a: Attempt, batch: seq<BronzeRow>, now: int, k: nat)
    requires StableAttempt(a, batch, now) && k < 6
    ensures IsDedup(a.picks[k], batch, now)
  {
  }

  ghost predicate SameContent(p: map<Id, BronzeRow>, q: map<Id, BronzeRow>) {
    p.Keys == q.Keys && forall id | id in p :: p[id].event == q[id].event
  }

  /** The domain tables look at content only. */
  lemma SameProjections(p: map<Id, BronzeRow>, q: map<Id, BronzeRow>)
    requires SameContent(p, q)
    ensures Orders(p) == Orders(q) && Refunds(p) == Refunds(q) && Customers(p) == Customers(q)
    ensures Products(p) == Products(q) && Inventory(p) == Inventory(q)
  {
    SameProjection(p, q, AsOrder);
    SameProjection(p, q, AsRefund);
    SameProjection(p, q, AsCustomer);
    SameProjection(p, q, AsProduct);
    SameProjection(p, q, AsInventory);
  }

  lemma SameProjection<V>(p: map<Id, BronzeRow>, q: map<Id, BronzeRow>, form: Event -> Option<V>)
    requires SameContent(p, q)
    ensures Project(p, form) == Project(q, form)
  {
  }

  /** Two deduplications of one batch differ in lineage only, so every projection of them agrees. */
  lemma PicksProjectAlike(batch: seq<BronzeRow>, now: int, p: map<Id, BronzeRow>, q: map<Id, BronzeRow>)
    requires OneContentPerId(batch) && IsDedup(p, batch, now) && IsDedup(q, batch, now)
    ensures SameContent(p, q)
    ensures Orders(p) == Orders(q) && Refunds(p) == Refunds(q) && Customers(p) == Customers(q)
    ensures Products(p) == Products(q) && Inventory(p) == Inventory(q)
  {
    forall id ensures id in p <==> id in q {
      if id in p { assert ValidIn(batch, now, p[id]); }
      if id in q { assert ValidIn(batch, now, q[id]); }
    }
    SameProjections(p, q);
  }

  /** Merging projections is projecting the merge. */
  lemma ProjectionOfMerge<V>(
      earlier: map<Id, BronzeRow>, pick: map<Id, BronzeRow>, merged: map<Id, BronzeRow>, form: Event -> Option<V>)
    requires SameContent(merged, InsertNew(earlier, pick))
    requires forall id | id in earlier && id in pick :: earlier[id].event == pick[id].event
    ensures Project(merged, form) == InsertNew(Project(earlier, form), Project(pick, form))
  {
  }

  lemma StableQuarantine(batch: seq<BronzeRow>, clock: int, now: int)
    requires UniqueCoords(batch)
    requires forall r | r in batch :: Classify(r.event, clock) == Classify(r.event, now)
    ensures Quarantine(batch, clock) == Quarantine(batch, now)
  {
    assert forall i | 0 <= i < |batch| :: batch[i] in batch;
  }

  // ---------------------------------------------------------------- how far a batch has got

  // The events table holds its old rows and, besides, valid rows of the batch under their own ids.
  ghost predicate EventsBetween(
      before: map<Id, BronzeRow>, after: map<Id, BronzeRow>, batch: seq<BronzeRow>, now: int) {
    && (forall id | id in before :: id in after && after[id] == before[id])
    && (forall id | id in after && id !in before ::
          ValidIn(batch, now, after[id]) && after[id].event.eventId == Some(id))
  }

  ghost predicate EventsDone(after: map<Id, BronzeRow>, batch: seq<BronzeRow>, now: int) {
    forall r | ValidIn(batch, now, r) :: r.event.eventId.value in after
  }

  // A domain table is as before the batch or fully merged; when done, it is fully merged.
  predicate TableReached<K, V(==)>(before: map<K, V>, after: map<K, V>, source: map<K, V>, done: bool) {
    after == InsertNew(before, source) || (!done && after == before)
  }

  /** Each table is as before the batch, or fully merged; the first n are fully merged. */
  ghost predicate Reached(t0: Tables, t: Tables, batch: seq<BronzeRow>, now: int, pick: map<Id, BronzeRow>, n: nat)
    requires UniqueCoords(batch)
  {
    && EventsBetween(t0.events, t.events, batch, now)
    && (0 < n ==> EventsDone(t.events, batch, now))
    && TableReached(t0.orders, t.orders, Orders(pick), 1 < n)
    && TableReached(t0.refunds, t.refunds, Refunds(pick), 2 < n)
    && TableReached(t0.customers, t.customers, Customers(pick), 3 < n)
    && TableReached(t0.products, t.products, Products(pick), 4 < n)
    && TableReached(t0.inventory, t.inventory, Inventory(pick), 5 < n)
    && TableReached(t0.quarantine, t.quarantine, Quarantine(batch, now), 6 < n)
  }

  lemma MergeAgain<K, V>(before: map<K, V>, after: map<K, V>, source: map<K, V>, done: bool)
    requires TableReached(before, after, source, done)
    ensures TableReached(before, InsertNew(after, source), source, true)
  {
  }

  lemma EventsMergeReaches(
      before: map<Id, BronzeRow>, after: map<Id, BronzeRow>, batch: seq<BronzeRow>, now: int,
      pick: map<Id, BronzeRow>)
    requires EventsBetween(before, after, batch, now) && IsDedup(pick, batch, now)
    ensures EventsBetween(before, InsertNew(after, pick), batch, now) && EventsDone(InsertNew(after, pick), batch, now)
  {
  }

  // What stability and the content contract give: every reading sees the same source, up to lineage.
  ghost predicate Aligned(a: Attempt, batch: seq<BronzeRow>, now: int, pick: map<Id, BronzeRow>)
    requires UniqueCoords(batch)
  {
    && |a.clocks| == 7 && |a.picks| == 6
    && (forall k | 0 <= k < 6 :: IsDedup(a.picks[k], batch, now) && SameContent(pick, a.picks[k]))
    && Quarantine(batch, a.clocks[6]) == Quarantine(batch, now)
  }

  lemma StableIsAligned(a: Attempt, batch: seq<BronzeRow>, now: int, pick: map<Id, BronzeRow>)
    requires UniqueCoords(batch) && OneContentPerId(batch) && IsDedup(pick, batch, now) && StableAttempt(a, batch, now)
    ensures Aligned(a, batch, now, pick)
  {
    forall k | 0 <= k < 6 ensures IsDedup(a.picks[k], batch, now) && SameContent(pick, a.picks[k]) {
      StablePick(a, batch, now, k);
      PicksProjectAlike(batch, now, pick, a.picks[k]);
    }
    StableQuarantine(batch, a.clocks[6], now);
  }

  lemma FirstMergeReaches(
      t0: Tables, t: Tables, batch: seq<BronzeRow>, now: int, pick: map<Id, BronzeRow>, a: Attempt)
    requires UniqueCoords(batch) && |a.clocks| == 7 && |a.picks| == 6 && IsDedup(a.picks[0], batch, now)
    requires Reached(t0, t, batch, now, pick, 0)
    ensures Reached(t0, Merge(t, batch, a, 0), batch, now, pick, 1)
  {
    EventsMergeReaches(t0.events, t.events, batch, now, a.picks[0]);
  }

  lemma LastMergeReaches(
      t0: Tables, t: Tables, batch: seq<BronzeRow>, now: int, pick: map<Id, BronzeRow>, a: Attempt)
    requires UniqueCoords(batch) && |a.clocks| == 7 && |a.picks| == 6
    requires Quarantine(batch, a.clocks[6]) == Quarantine(batch, now)
    requires Reached(t0, t, batch, now, pick, 6)
    ensures Reached(t0, Merge(t, batch, a, 6), batch, now, pick, 7)
  {
    var source := Quarantine(batch, now);
    MergeAgain(t0.quarantine, t.quarantine, source, false);
    assert Merge(t, batch, a, 6) == t.(quarantine := InsertNew(t.quarantine, source));
  }

  lemma MergeReaches(
      t0: Tables, t: Tables, batch: seq<BronzeRow>, now: int, pick: map<Id, BronzeRow>, a: Attempt, k: nat)
    requires UniqueCoords(batch) && Aligned(a, batch, now, pick)
    requires k < 7 && Reached(t0, t, batch, now, pick, k)
    ensures Reached(t0, Merge(t, batch, a, k), batch, now, pick, k + 1)
  {
    if k == 0 {
      FirstMergeReaches(t0, t, batch, now, pick, a);
    } else if k < 6 {
      SameProjections(pick, a.picks[k]);
      TableMergeReaches(t0, t, batch, now, pick, a, k);
    } else {
      LastMergeReaches(t0, t, batch, now, pick, a);
    }
  }

  lemma TableMergeReaches(
      t0: Tables, t: Tables, batch: seq<BronzeRow>, now: int, pick: map<Id, BronzeRow>, a: Attempt, k: nat)
    requires UniqueCoords(batch) && |a.clocks| == 7 && |a.picks| == 6 && 1 <= k < 6
    requires Reached(t0, t, batch, now, pick, k)
    requires Orders(pick) == Orders(a.picks[k]) && Refunds(pick) == Refunds(a.picks[k])
    requires Customers(pick) == Customers(a.picks[k]) && Products(pick) == Products(a.picks[k])
    requires Inventory(pick) == Inventory(a.picks[k])
    ensures Reached(t0, Merge(t, batch, a, k), batch, now, pick, k + 1)
  {
    match k
    case 1 => MergeAgain(t0.orders, t.orders, Orders(pick), false);
    case 2 => MergeAgain(t0.refunds, t.refunds, Refunds(pick), false);
    case 3 => MergeAgain(t0.customers, t.customers, Customers(pick), false);
    case 4 => MergeAgain(t0.products, t.products, Products(pick), false);
    case 5 => MergeAgain(t0.inventory, t.inventory, Inventory(pick), false);
  }

  lemma {:induction false} MergesReach(
      t0: Tables, t: Tables, batch: seq<BronzeRow>, now: int, pick: map<Id, BronzeRow>, a: Attempt, n: nat)
    requires UniqueCoords(batch) && Aligned(a, batch, now, pick)
    requires n <= 7 && Reached(t0, t, batch, now, pick, 0)
    ensures Reached(t0, Merges(t, batch, a, n), batch, now, pick, n)
  {
    if n > 0 {
      MergesReach(t0, t, batch, now, pick, a, n - 1);
      MergeReaches(t0, Merges(t, batch, a, n - 1), batch, now, pick, a, n - 1);
    }
  }

  ghost predicate StableAttempts(attempts: seq<Attempt>, batch: seq<BronzeRow>, now: int) {
    forall i | 0 <= i < |attempts| :: StableAttempt(attempts[i], batch, now)
  }

  lemma {:induction false} AttemptsStayBetween(
      t0: Tables, batch: seq<BronzeRow>, now: int, pick: map<Id, BronzeRow>, attempts: seq<Attempt>)
    requires UniqueCoords(batch) && OneContentPerId(batch) && IsDedup(pick, batch, now)
    requires StableAttempts(attempts, batch, now)
    ensures Reached(t0, Attempts(t0, batch, attempts), batch, now, pick, 0)
  {
    if attempts != [] {
      var last := attempts[|attempts| - 1];
      var before := attempts[..|attempts| - 1];
      AttemptsStayBetween(t0, batch, now, pick, before);
      StableIsAligned(last, batch, now, pick);
      MergesReach(t0, Attempts(t0, batch, before), batch, now, pick, last, last.stop);
    }
  }

  // ---------------------------------------------------------------- crash convergence

  /** Equal tables, except that an event may keep the lineage of another delivery of itself. */
  ghost predicate SameUpToLineage(s: Tables, t: Tables) {
    && s.events.Keys == t.events.Keys
    && (forall id | id in s.events :: s.events[id].event == t.events[id].event)
    && s.orders == t.orders && s.refunds == t.refunds && s.customers == t.customers
    && s.products == t.products && s.inventory == t.inventory && s.quarantine == t.quarantine
  }

  /**
    Any crashed attempts, each stopping after any number of merges, then a full one: as if there had been only
    that one.
   */
  lemma {:induction false} CrashedAttemptsConverge(
      t0: Tables, batch: seq<BronzeRow>, now: int, crashed: seq<Attempt>, full: Attempt, uninterrupted: Attempt)
    requires UniqueCoords(batch) && OneContentPerId(batch)
    requires StableAttempts(crashed, batch, now)
    requires StableAttempt(full, batch, now) && full.stop == 7
    requires StableAttempt(uninterrupted, batch, now) && uninterrupted.stop == 7
    ensures SameUpToLineage(
              Attempts(t0, batch, crashed + [full]),
              Attempts(t0, batch, [uninterrupted]))
  {
    StablePick(full, batch, now, 0);
    var pick := full.picks[0];
    FullBatchReaches(t0, batch, now, pick, crashed, full);
    FullBatchReaches(t0, batch, now, pick, [], uninterrupted);
    assert [] + [uninterrupted] == [uninterrupted];
    ReachedAlike(t0, Attempts(t0, batch, crashed + [full]), Attempts(t0, batch, [uninterrupted]), batch, now, pick);
  }

  lemma {:induction false} FullBatchReaches(
      t0: Tables, batch: seq<BronzeRow>, now: int, pick: map<Id, BronzeRow>, crashed: seq<Attempt>, full: Attempt)
    requires UniqueCoords(batch) && OneContentPerId(batch) && IsDedup(pick, batch, now)
    requires StableAttempts(crashed, batch, now) && StableAttempt(full, batch, now) && full.stop == 7
    ensures StableAttempts(crashed + [full], batch, now)
    ensures Reached(t0, Attempts(t0, batch, crashed + [full]), batch, now, pick, 7)
  {
    var all := crashed + [full];
    assert all[..|all| - 1] == crashed;
    AttemptsStayBetween(t0, batch, now, pick, crashed);
    StableIsAligned(full, batch, now, pick);
    MergesReach(t0, Attempts(t0, batch, crashed), batch, now, pick, full, 7);
  }

  lemma ReachedAlike(t0: Tables, s: Tables, t: Tables, batch: seq<BronzeRow>, now: int, pick: map<Id, BronzeRow>)
    requires UniqueCoords(batch) && OneContentPerId(batch)
    requires Reached(t0, s, batch, now, pick, 7) && Reached(t0, t, batch, now, pick, 7)
    ensures SameUpToLineage(s, t)
  {
  }

  ghost predicate EventsKept(before: Tables, after: Tables) {
    forall id | id in before.events :: id in after.events && after.events[id] == before.events[id]
  }

  /** No merge of any attempt, complete or not, changes or drops an event. */
  lemma {:induction false} MergesKeepEvents(t: Tables, batch: seq<BronzeRow>, a: Attempt, n: nat)
    requires UniqueCoords(batch) && |a.clocks| == 7 && |a.picks| == 6 && n <= 7
    ensures EventsKept(t, Merges(t, batch, a, n))
  {
    if n > 0 { MergesKeepEvents(t, batch, a, n - 1); }
  }

  lemma {:induction false} AttemptsKeepEvents(t: Tables, batch: seq<BronzeRow>, attempts: seq<Attempt>)
    requires UniqueCoords(batch)
    requires forall i | 0 <= i < |attempts| ::
               |attempts[i].clocks| == 7 && |attempts[i].picks| == 6 && attempts[i].stop <= 7
    ensures EventsKept(t, Attempts(t, batch, attempts))
  {
    if attempts != [] {
      var before := attempts[..|attempts| - 1];
      AttemptsKeepEvents(t, batch, before);
      MergesKeepEvents(Attempts(t, batch, before), batch, attempts[|attempts| - 1], attempts[|attempts| - 1].stop);
    }
  }

  // ---------------------------------------------------------------- whole histories

  // A Bronze row with the verdict that its own batch gave it.
  datatype Verdict = Verdict(row: BronzeRow, reason: Option<Reason>)

  // One micro-batch: its rows, a clock that stands for all its readings, and the attempts it took.
  datatype Batch = Batch(rows: seq<BronzeRow>, now: int, crashed: seq<Attempt>, full: Attempt)

  ghost predicate IsBatch(b: Batch) {
    && UniqueCoords(b.rows)
    && StableAttempts(b.crashed, b.rows, b.now)
    && StableAttempt(b.full, b.rows, b.now) && b.full.stop == 7
  }

  ghost predicate AreBatches(bs: seq<Batch>) { forall i | 0 <= i < |bs| :: IsBatch(bs[i]) }

  ghost function Replayed(t: Tables, b: Batch): Tables
    requires IsBatch(b)
  {
    Attempts(t, b.rows, b.crashed + [b.full])
  }

  ghost function RunBatches(bs: seq<Batch>): Tables
    requires AreBatches(bs)
  {
    if bs == [] then EmptyTables else Replayed(RunBatches(bs[..|bs| - 1]), bs[|bs| - 1])
  }

  function VerdictsOf(b: Batch): set<Verdict> {
    set r | r in b.rows :: Verdict(r, Classify(r.event, b.now))
  }

  function Verdicts(bs: seq<Batch>): set<Verdict> {
    if bs == [] then {} else Verdicts(bs[..|bs| - 1]) + VerdictsOf(bs[|bs| - 1])
  }

  /** The content contract over everything seen, and one Bronze row, with one verdict, for each Kafka coordinate. */
  ghost predicate BronzeContract(seen: set<Verdict>) {
    && (forall v, w | v in seen && w in seen && v.row.event.eventId.Some?
                      && v.row.event.eventId == w.row.event.eventId :: v.row.event == w.row.event)
    && (forall v, w | v in seen && w in seen && v.row.coord == w.row.coord :: v == w)
  }

  /**
    What the tables of a processed Bronze history are: events holds one row for each id that has a
    valid row; every other domain table is that projection of events; and quarantine holds exactly the rejected rows.
   */
  ghost predicate Represents(t: Tables, seen: set<Verdict>) {
    && EventsHold(t.events, seen)
    && Projected(t)
    && QuarantineHolds(t.quarantine, seen)
  }

  /** Events holds a delivered valid row under every id that has one, and nothing else. */
  ghost predicate EventsHold(events: map<Id, BronzeRow>, seen: set<Verdict>) {
    && (forall v | v in seen && v.reason.None? ::
          v.row.event.eventId.Some? && v.row.event.eventId.value in events)
    && (forall id | id in events :: events[id].event.eventId == Some(id) && Verdict(events[id], None) in seen)
  }

  /** Every domain table is the matching projection of events, and events holds only acceptable rows. */
  ghost predicate Projected(t: Tables) {
    && t.orders == Orders(t.events) && t.refunds == Refunds(t.events)
    && t.customers == Customers(t.events) && t.products == Products(t.events)
    && t.inventory == Inventory(t.events)
    && WellKeyed(t.events)
  }

  // ---------------------------------------------------------------- the columns of the domain tables

  predicate OrderShows(o: OrderRow, e: Event) {
    && o.orderId == e.orderId && o.customerId == e.userId && o.productId == e.productId
    && o.orderedAt == e.timestamp && o.quantity == e.quantity && o.price == e.price
    && o.country == e.country && o.attributes == e.attributes
  }

  predicate RefundShows(r: RefundRow, e: Event) {
    && r.refundId == e.refundId && r.orderId == e.orderId && r.customerId == e.userId && r.productId == e.productId
    && r.refundedAt == e.timestamp && r.quantity == e.quantity && r.price == e.price && r.attributes == e.attributes
  }

  predicate CustomerShows(c: CustomerRow, e: Event) {
    e.userId == Some(c.customerId) && c.at == e.timestamp && c.country == e.country && c.attributes == e.attributes
  }

  predicate ProductShows(p: ProductRow, e: Event) {
    && e.productId == Some(p.productId) && p.category == e.category && p.price == e.price
    && p.at == e.timestamp && p.attributes == e.attributes
  }

  predicate InventoryShows(i: InventoryRow, e: Event) {
    i.productId == e.productId && i.at == e.timestamp && i.attributes == e.attributes
  }

  /** An event is in exactly the domain tables that its type and its ids call for, column by column. */
  ghost predicate Distributed(t: Tables, id: Id, e: Event) {
    && (if e.eventType == Some(Purchase) then id in t.orders && OrderShows(t.orders[id], e) else id !in t.orders)
    && (if e.eventType == Some(Refund) then id in t.refunds && RefundShows(t.refunds[id], e) else id !in t.refunds)
    && (if e.userId.Some? then id in t.customers && CustomerShows(t.customers[id], e) else id !in t.customers)
    && (if e.productId.Some? then id in t.products && ProductShows(t.products[id], e) else id !in t.products)
    && (if e.eventType == Some(InventoryUpdate) then id in t.inventory && InventoryShows(t.inventory[id], e)
        else id !in t.inventory)
  }

  ghost predicate InDomain(t: Tables, id: Id) {
    id in t.orders || id in t.refunds || id in t.customers || id in t.products || id in t.inventory
  }

  lemma ProjectedIsDistributed(t: Tables, id: Id)
    requires Projected(t)
    ensures InDomain(t, id) ==> id in t.events
    ensures id in t.events ==> Distributed(t, id, t.events[id].event)
  {
  }

  /** The domain tables hold what was accepted, each event as it was delivered, and nothing else. */
  ghost predicate DomainHolds(t: Tables, seen: set<Verdict>) {
    && (forall v | v in seen && v.reason.None? ::
          v.row.event.eventId.Some? && Distributed(t, v.row.event.eventId.value, v.row.event))
    && (forall id: Id | InDomain(t, id) :: exists v :: v in seen && v.reason.None? && v.row.event.eventId == Some(id))
  }

  lemma RepresentedDomain(t: Tables, seen: set<Verdict>)
    requires Represents(t, seen) && BronzeContract(seen)
    ensures DomainHolds(t, seen)
  {
    forall v | v in seen && v.reason.None?
      ensures v.row.event.eventId.Some? && Distributed(t, v.row.event.eventId.value, v.row.event)
    {
      var id := v.row.event.eventId.value;
      assert Verdict(t.events[id], None) in seen;
      ProjectedIsDistributed(t, id);
    }
    forall id: Id | InDomain(t, id)
      ensures exists v :: v in seen && v.reason.None? && v.row.event.eventId == Some(id)
    {
      ProjectedIsDistributed(t, id);
      assert Verdict(t.events[id], None) in seen;
    }
  }

  predicate WellKeyedRow(id: Id, r: BronzeRow) {
    && r.event.eventId == Some(id) && r.event.timestamp.Some?
    && (Is(r.event, Purchase) ==> r.event.userId.Some? && r.event.productId.Some?)
  }

  ghost predicate WellKeyed(events: map<Id, BronzeRow>) {
    forall id | id in events :: WellKeyedRow(id, events[id])
  }

  // The content contract over everything seen holds within each batch.
  lemma BatchContent(b: Batch, seen: set<Verdict>)
    requires BronzeContract(seen + VerdictsOf(b))
    ensures OneContentPerId(b.rows)
  {
    forall r, q | r in b.rows && q in b.rows && r.event.eventId.Some? && r.event.eventId == q.event.eventId
      ensures r.event == q.event
    {
      assert Verdict(r, Classify(r.event, b.now)) in VerdictsOf(b);
      assert Verdict(q, Classify(q.event, b.now)) in VerdictsOf(b);
    }
  }

  lemma BatchKeepsRepresentation(t0: Tables, b: Batch, seen: set<Verdict>)
    requires IsBatch(b) && Represents(t0, seen) && BronzeContract(seen + VerdictsOf(b))
    ensures Represents(Replayed(t0, b), seen + VerdictsOf(b))
  {
    BatchContent(b, seen);
    StablePick(b.full, b.rows, b.now, 0);
    var pick := b.full.picks[0];
    FullBatchReaches(t0, b.rows, b.now, pick, b.crashed, b.full);
    var t := Replayed(t0, b);
    EventsRepresent(t0.events, t.events, b, seen);
    EventsMergeContent(t0.events, t.events, b, seen, pick);
    ProjectionsFollow(t0, t, b, pick);
    QuarantineRepresents(t0, t, b, seen);
  }

  lemma EventsRepresent(before: map<Id, BronzeRow>, after: map<Id, BronzeRow>, b: Batch, seen: set<Verdict>)
    requires EventsHold(before, seen)
    requires EventsBetween(before, after, b.rows, b.now) && EventsDone(after, b.rows, b.now)
    ensures EventsHold(after, seen + VerdictsOf(b))
  {
  }

  // Under the content contract the picked rows and the merged events have the same content.
  lemma EventsMergeContent(
      before: map<Id, BronzeRow>, after: map<Id, BronzeRow>, b: Batch, seen: set<Verdict>, pick: map<Id, BronzeRow>)
    requires EventsHold(after, seen + VerdictsOf(b)) && IsDedup(pick, b.rows, b.now)
    requires BronzeContract(seen + VerdictsOf(b))
    requires EventsBetween(before, after, b.rows, b.now) && EventsDone(after, b.rows, b.now)
    ensures SameContent(after, InsertNew(before, pick))
    ensures forall id | id in before && id in pick :: before[id].event == pick[id].event
  {
    EventsMergeKeys(before, after, b, pick);
    forall id | id in pick ensures after[id].event == pick[id].event {
      PickHasContent(after, pick, b, seen, id);
    }
    MergedContent(before, after, pick);
  }

  lemma MergedContent(before: map<Id, BronzeRow>, after: map<Id, BronzeRow>, pick: map<Id, BronzeRow>)
    requires after.Keys == before.Keys + pick.Keys
    requires forall id | id in before :: after[id] == before[id]
    requires forall id | id in pick :: after[id].event == pick[id].event
    ensures SameContent(after, InsertNew(before, pick))
    ensures forall id | id in before && id in pick :: before[id].event == pick[id].event
  {
  }

  lemma PickHasContent(after: map<Id, BronzeRow>, pick: map<Id, BronzeRow>, b: Batch, seen: set<Verdict>, id: Id)
    requires EventsHold(after, seen + VerdictsOf(b)) && BronzeContract(seen + VerdictsOf(b))
    requires IsDedup(pick, b.rows, b.now) && id in pick && id in after
    ensures after[id].event == pick[id].event
  {
    assert ValidIn(b.rows, b.now, pick[id]);
    assert Verdict(pick[id], None) in VerdictsOf(b);
    assert Verdict(after[id], None) in seen + VerdictsOf(b);
  }

  lemma EventsMergeKeys(before: map<Id, BronzeRow>, after: map<Id, BronzeRow>, b: Batch, pick: map<Id, BronzeRow>)
    requires IsDedup(pick, b.rows, b.now)
    requires EventsBetween(before, after, b.rows, b.now) && EventsDone(after, b.rows, b.now)
    ensures after.Keys == before.Keys + pick.Keys
  {
  }

  // Every domain table took in the projection of the picked rows.
  ghost predicate DomainMerged(t0: Tables, t: Tables, pick: map<Id, BronzeRow>) {
    && t.orders == InsertNew(t0.orders, Orders(pick)) && t.refunds == InsertNew(t0.refunds, Refunds(pick))
    && t.customers == InsertNew(t0.customers, Customers(pick)) && t.products == InsertNew(t0.products, Products(pick))
    && t.inventory == InsertNew(t0.inventory, Inventory(pick))
  }

  lemma ProjectionsFollow(t0: Tables, t: Tables, b: Batch, pick: map<Id, BronzeRow>)
    requires Projected(t0) && DomainMerged(t0, t, pick) && EventsBetween(t0.events, t.events, b.rows, b.now)
    requires SameContent(t.events, InsertNew(t0.events, pick))
    requires forall id | id in t0.events && id in pick :: t0.events[id].event == pick[id].event
    ensures Projected(t)
  {
    PurchaseTablesFollow(t0, t, pick);
    ActivityTablesFollow(t0, t, pick);
    PurchasesHaveKeys(t0.events, t.events, b);
  }

  lemma PurchaseTablesFollow(t0: Tables, t: Tables, pick: map<Id, BronzeRow>)
    requires t0.orders == Orders(t0.events) && t.orders == InsertNew(t0.orders, Orders(pick))
    requires t0.refunds == Refunds(t0.events) && t.refunds == InsertNew(t0.refunds, Refunds(pick))
    requires SameContent(t.events, InsertNew(t0.events, pick))
    requires forall id | id in t0.events && id in pick :: t0.events[id].event == pick[id].event
    ensures t.orders == Orders(t.events) && t.refunds == Refunds(t.events)
  {
    ProjectionFollows(t0.events, pick, t.events, t0.orders, t.orders, AsOrder);
    ProjectionFollows(t0.events, pick, t.events, t0.refunds, t.refunds, AsRefund);
  }

  lemma ActivityTablesFollow(t0: Tables, t: Tables, pick: map<Id, BronzeRow>)
    requires t0.customers == Customers(t0.events) && t.customers == InsertNew(t0.customers, Customers(pick))
    requires t0.products == Products(t0.events) && t.products == InsertNew(t0.products, Products(pick))
    requires t0.inventory == Inventory(t0.events) && t.inventory == InsertNew(t0.inventory, Inventory(pick))
    requires SameContent(t.events, InsertNew(t0.events, pick))
    requires forall id | id in t0.events && id in pick :: t0.events[id].event == pick[id].event
    ensures t.customers == Customers(t.events) && t.products == Products(t.events)
    ensures t.inventory == Inventory(t.events)
  {
    ProjectionFollows(t0.events, pick, t.events, t0.customers, t.customers, AsCustomer);
    ProjectionFollows(t0.events, pick, t.events, t0.products, t.products, AsProduct);
    ProjectionFollows(t0.events, pick, t.events, t0.inventory, t.inventory, AsInventory);
  }

  lemma ProjectionFollows<V>(
      before: map<Id, BronzeRow>, pick: map<Id, BronzeRow>, after: map<Id, BronzeRow>,
      table: map<Id, V>, table': map<Id, V>, form: Event -> Option<V>)
    requires SameContent(after, InsertNew(before, pick))
    requires forall id | id in before && id in pick :: before[id].event == pick[id].event
    requires table == Project(before, form) && table' == InsertNew(table, Project(pick, form))
    ensures table' == Project(after, form)
  {
    ProjectionOfMerge(before, pick, after, form);
  }

  lemma PurchasesHaveKeys(before: map<Id, BronzeRow>, after: map<Id, BronzeRow>, b: Batch)
    requires EventsBetween(before, after, b.rows, b.now) && WellKeyed(before)
    ensures WellKeyed(after)
  {
  }

  lemma QuarantineSource(b: Batch)
    requires UniqueCoords(b.rows)
    ensures var source := Quarantine(b.rows, b.now);
            && (forall v | v in VerdictsOf(b) && v.reason.Some? ::
                  v.row.coord in source && source[v.row.coord] == QuarantineRow(v.row, v.reason.value))
            && (forall c | c in source ::
                  source[c].row.coord == c && Verdict(source[c].row, Some(source[c].reason)) in VerdictsOf(b))
  {
  }

  /** Quarantine holds exactly the rejected rows of what was seen. */
  ghost predicate QuarantineHolds(quarantine: map<Coord, QuarantineRow>, seen: set<Verdict>) {
    && (forall v | v in seen && v.reason.Some? ::
          v.row.coord in quarantine && quarantine[v.row.coord] == QuarantineRow(v.row, v.reason.value))
    && (forall c | c in quarantine ::
          quarantine[c].row.coord == c && Verdict(quarantine[c].row, Some(quarantine[c].reason)) in seen)
  }

  lemma QuarantineRepresents(t0: Tables, t: Tables, b: Batch, seen: set<Verdict>)
    requires UniqueCoords(b.rows) && QuarantineHolds(t0.quarantine, seen) && BronzeContract(seen + VerdictsOf(b))
    requires t.quarantine == InsertNew(t0.quarantine, Quarantine(b.rows, b.now))
    ensures QuarantineHolds(t.quarantine, seen + VerdictsOf(b))
  {
    QuarantineSource(b);
    var all := seen + VerdictsOf(b);
    forall v | v in all && v.reason.Some?
      ensures v.row.coord in t.quarantine && t.quarantine[v.row.coord] == QuarantineRow(v.row, v.reason.value)
    {
      var c := v.row.coord;
      if c in t0.quarantine { assert Verdict(t0.quarantine[c].row, Some(t0.quarantine[c].reason)) in all; }
    }
  }

  lemma ContractShrinks(small: set<Verdict>, big: set<Verdict>)
    requires small <= big && BronzeContract(big)
    ensures BronzeContract(small)
  {
  }

  /**
    However Bronze is cut into batches, and however often each is replayed, Silver represents exactly what was
    seen, column by column in its domain tables.
   */
  lemma {:induction false} SilverRepresentsBronze(bs: seq<Batch>)
    requires AreBatches(bs) && BronzeContract(Verdicts(bs))
    ensures Represents(RunBatches(bs), Verdicts(bs))
    ensures DomainHolds(RunBatches(bs), Verdicts(bs))
  {
    if bs != [] {
      var before := bs[..|bs| - 1];
      ContractShrinks(Verdicts(before), Verdicts(bs));
      SilverRepresentsBronze(before);
      BatchKeepsRepresentation(RunBatches(before), bs[|bs| - 1], Verdicts(before));
    }
    RepresentedDomain(RunBatches(bs), Verdicts(bs));
  }

  lemma EventsAreUnique(p: map<Id, BronzeRow>, q: map<Id, BronzeRow>, seen: set<Verdict>)
    requires BronzeContract(seen) && EventsHold(p, seen) && EventsHold(q, seen)
    ensures SameContent(p, q)
  {
    forall id ensures id in p <==> id in q {
      if id in p { assert Verdict(p[id], None) in seen; }
      if id in q { assert Verdict(q[id], None) in seen; }
    }
    forall id | id in p ensures p[id].event == q[id].event {
      assert Verdict(p[id], None) in seen && Verdict(q[id], None) in seen;
    }
  }

  lemma RepresentationIsUnique(s: Tables, t: Tables, seen: set<Verdict>)
    requires BronzeContract(seen) && Represents(s, seen) && Represents(t, seen)
    ensures SameUpToLineage(s, t)
  {
    EventsAreUnique(s.events, t.events, seen);
    SameProjections(s.events, t.events);
    QuarantineIsUnique(s.quarantine, t.quarantine, seen);
  }

  lemma QuarantineIsUnique(p: map<Coord, QuarantineRow>, q: map<Coord, QuarantineRow>, seen: set<Verdict>)
    requires QuarantineHolds(p, seen) && QuarantineHolds(q, seen)
    ensures p == q
  {
  }

  /** Two histories over the same Bronze rows, classified alike, end in the same Silver state. */
  lemma {:induction false} SilverDependsOnBronzeOnly(bs: seq<Batch>, cs: seq<Batch>)
    requires AreBatches(bs) && AreBatches(cs) && Verdicts(bs) == Verdicts(cs) && BronzeContract(Verdicts(bs))
    ensures SameUpToLineage(RunBatches(bs), RunBatches(cs))
  {
    SilverRepresentsBronze(bs);
    SilverRepresentsBronze(cs);
    RepresentationIsUnique(RunBatches(bs), RunBatches(cs), Verdicts(bs));
  }

  /**
    Each Bronze row is kept as its own verdict says: by its id, its coordinates not in quarantine, or by its
    coordinates.
   */
  lemma {:induction false} EveryRowIsKeptOnce(bs: seq<Batch>, v: Verdict)
    requires AreBatches(bs) && BronzeContract(Verdicts(bs)) && v in Verdicts(bs)
    ensures var t := RunBatches(bs);
            && (v.reason.None? ==>
                  && v.row.event.eventId.Some? && v.row.event.eventId.value in t.events
                  && t.events[v.row.event.eventId.value].event == v.row.event
                  && v.row.coord !in t.quarantine)
            && (v.reason.Some? ==>
                  && v.row.coord in t.quarantine
                  && t.quarantine[v.row.coord] == QuarantineRow(v.row, v.reason.value))
  {
    SilverRepresentsBronze(bs);
    var t := RunBatches(bs);
    if v.reason.None? {
      assert Verdict(t.events[v.row.event.eventId.value], None) in Verdicts(bs);
    }
  }
}
