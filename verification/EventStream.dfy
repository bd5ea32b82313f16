/**
  One web process of the public demo: its module variables, its statements against the events
  table and the lease row, and the tick that ties them together.
 */
module EventStream {
  import opened Options
  import opened Calendar
  import opened DemoConfig
  import opened StreamLease

  type EventId = nat

  // ---------------------------------------------------------------- what the statements mean

  function NotOlderThan(rows: map<EventId, int>, cutoff: int): map<EventId, int> {
    map id | id in rows && rows[id] >= cutoff :: rows[id]
  }

  /** Every row outside the kept set is at least as old as every row inside it. */
  ghost predicate KeepsNewest(rows: map<EventId, int>, kept: set<EventId>) {
    forall d, k | d in rows.Keys - kept && k in kept && k in rows :: rows[d] <= rows[k]
  }

  /** Pruning keeps exactly the newest rows that are not older than the cutoff, at most `cap` of them. */
  ghost predicate Pruned(before: map<EventId, int>, cutoff: int, cap: int, after: map<EventId, int>) {
    var recent := NotOlderThan(before, cutoff);
    && after.Keys <= recent.Keys
    && (forall id | id in after :: after[id] == before[id])
    && |after| == Min(|recent|, cap)
    && KeepsNewest(recent, after.Keys)
  }

  /**
    What is kept was there, is not older than the cutoff, and fits the cap; and a row is dropped only for
    being older, or for a cap that is full of rows at least as new.
   */
  ghost predicate KeptRightly(before: map<EventId, int>, cutoff: int, cap: int, after: map<EventId, int>) {
    && (forall id | id in after :: id in before && after[id] == before[id] && cutoff <= before[id])
    && |after| <= cap
    && (forall d | d in before && d !in after && cutoff <= before[d] :: |after| == cap)
    && (forall d, k | d in before && d !in after && cutoff <= before[d] && k in after :: before[d] <= before[k])
  }

  /** Pruned and rightly kept are the same thing. */
  lemma PrunedExactly(before: map<EventId, int>, cutoff: int, cap: int, after: map<EventId, int>)
    requires 0 <= cap
    ensures Pruned(before, cutoff, cap, after) <==> KeptRightly(before, cutoff, cap, after)
  {
    if Pruned(before, cutoff, cap, after) { PrunedIsRight(before, cutoff, cap, after); }
    if KeptRightly(before, cutoff, cap, after) { RightIsPruned(before, cutoff, cap, after); }
  }

  lemma PrunedIsRight(before: map<EventId, int>, cutoff: int, cap: int, after: map<EventId, int>)
    requires 0 <= cap && Pruned(before, cutoff, cap, after)
    ensures KeptRightly(before, cutoff, cap, after)
  {
    var recent := NotOlderThan(before, cutoff);
    if |after.Keys| == |recent.Keys| { SameSize(after.Keys, recent.Keys); }
    assert |after| == |after.Keys| && |recent| == |recent.Keys|;
    forall d, k | d in before && d !in after && cutoff <= before[d] && k in after ensures before[d] <= before[k] {
      assert d in recent.Keys - after.Keys && k in recent;
    }
  }

  lemma RightIsPruned(before: map<EventId, int>, cutoff: int, cap: int, after: map<EventId, int>)
    requires 0 <= cap && KeptRightly(before, cutoff, cap, after)
    ensures Pruned(before, cutoff, cap, after)
  {
    var recent := NotOlderThan(before, cutoff);
    assert after.Keys <= recent.Keys;
    SubsetSize(after.Keys, recent.Keys);
    assert |after| == |after.Keys| && |recent| == |recent.Keys|;
    if after.Keys != recent.Keys {
      var d :| d in recent.Keys && d !in after.Keys;
      assert d in before && d !in after && cutoff <= before[d];
    }
  }

  /** A table within the cap whose rows are all recent enough is left exactly as it is. */
  lemma PruneLeavesRecentRows(before: map<EventId, int>, cutoff: int, cap: int, after: map<EventId, int>)
    requires Pruned(before, cutoff, cap, after)
    requires |before| <= cap
    ensures after == NotOlderThan(before, cutoff)
  {
    var recent := NotOlderThan(before, cutoff);
    SubsetSize(recent.Keys, before.Keys);
    SameSize(after.Keys, recent.Keys);
  }

  lemma SubsetSize<T>(a: set<T>, b: set<T>)
    requires a <= b
    ensures |a| <= |b|
  {
    assert b == a + (b - a);
  }

  lemma SameSize<T>(a: set<T>, b: set<T>)
    requires a <= b && |a| == |b|
    ensures a == b
  {
    assert b == a + (b - a);
  }

  /** The number of rows that one uninterrupted preparation with this cutoff leaves. */
  function PreparedSize(rows: map<EventId, int>, cutoff: int, cap: int, goal: nat): int {
    Max(Min(|NotOlderThan(rows, cutoff)|, cap), goal)
  }

  // From this cutoff on, preparing either table ends with the same number of rows.
  ghost predicate SameFate(a: map<EventId, int>, b: map<EventId, int>, cutoff: int, cap: int, goal: nat) {
    forall c | cutoff <= c :: PreparedSize(a, c, cap, goal) == PreparedSize(b, c, cap, goal)
  }

  lemma PruneKeepsFate(before: map<EventId, int>, cutoff: int, cap: int, after: map<EventId, int>, goal: nat)
    requires 0 <= cap && Pruned(before, cutoff, cap, after)
    ensures SameFate(before, after, cutoff, cap, goal)
  {
    forall c | cutoff <= c ensures PreparedSize(before, c, cap, goal) == PreparedSize(after, c, cap, goal) {
      PruneKeepsLaterSize(before, cutoff, cap, after, c);
    }
  }

  // If the overflow delete dropped a row that is recent enough for c, then all it kept are, too.
  lemma PruneKeepsLaterSize(before: map<EventId, int>, cutoff: int, cap: int, after: map<EventId, int>, c: int)
    requires 0 <= cap && Pruned(before, cutoff, cap, after) && cutoff <= c
    ensures Min(|NotOlderThan(before, c)|, cap) == Min(|NotOlderThan(after, c)|, cap)
  {
    var all, left := NotOlderThan(before, c), NotOlderThan(after, c);
    SubsetSize(left.Keys, all.Keys);
    if left.Keys == all.Keys {
      assert left == all;
    } else {
      assert all.Keys == left.Keys + (all.Keys - left.Keys);
      var d :| d in all.Keys - left.Keys;
      DroppedRecentRow(before, cutoff, cap, after, c, d);
      assert |all.Keys| >= |left.Keys| == |after.Keys|;
    }
  }

  lemma DroppedRecentRow(
      before: map<EventId, int>, cutoff: int, cap: int, after: map<EventId, int>, c: int, d: EventId)
    requires 0 <= cap && Pruned(before, cutoff, cap, after) && cutoff <= c
    requires d in before && c <= before[d] && d !in after
    ensures |after| == cap && NotOlderThan(after, c).Keys == after.Keys
  {
    PrunedExactly(before, cutoff, cap, after);
  }

  lemma FateThrough(
      a: map<EventId, int>, b: map<EventId, int>, c: map<EventId, int>, first: int, later: int, cap: int, goal: nat)
    requires SameFate(a, b, first, cap, goal) && SameFate(b, c, later, cap, goal) && first <= later
    ensures SameFate(a, c, later, cap, goal)
  {
  }

  lemma FateNow(a: map<EventId, int>, b: map<EventId, int>, first: int, later: int, cap: int, goal: nat)
    requires SameFate(a, b, first, cap, goal) && first <= later
    ensures PreparedSize(a, later, cap, goal) == PreparedSize(b, later, cap, goal)
  {
  }

  // Nor does the first of the two deletes on its own.
  lemma FirstDeleteKeepsFate(before: map<EventId, int>, cutoff: int, cap: int, goal: nat)
    ensures SameFate(before, NotOlderThan(before, cutoff), cutoff, cap, goal)
  {
    forall c | cutoff <= c
      ensures PreparedSize(before, c, cap, goal) == PreparedSize(NotOlderThan(before, cutoff), c, cap, goal)
    {
      assert NotOlderThan(NotOlderThan(before, cutoff), c) == NotOlderThan(before, c);
    }
  }

  lemma SeedKeepsFate(before: map<EventId, int>, after: map<EventId, int>, cutoff: int, cap: int, goal: nat)
    requires goal <= cap && |after| <= Max(|before|, goal)
    requires forall id | id in before :: id in after && after[id] == before[id]
    ensures SameFate(before, after, cutoff, cap, goal)
  {
    SubsetSize(before.Keys, after.Keys);
    if |before.Keys| == |after.Keys| {
      SameSize(before.Keys, after.Keys);
      assert before == after;
    } else {
      forall c | cutoff <= c ensures PreparedSize(before, c, cap, goal) == PreparedSize(after, c, cap, goal) {
        SubsetSize(NotOlderThan(before, c).Keys, before.Keys);
        SubsetSize(NotOlderThan(after, c).Keys, after.Keys);
      }
    }
  }

  /** Among some rows there is an oldest one. */
  lemma {:induction false} OldestExists(rows: map<EventId, int>, ids: set<EventId>) returns (oldest: EventId)
    requires ids != {} && ids <= rows.Keys
    ensures oldest in ids && forall k | k in ids :: rows[oldest] <= rows[k]
  {
    var first :| first in ids;
    var rest := ids - {first};
    oldest := first;
    if rest != {} {
      var other := OldestExists(rows, rest);
      if rows[other] < rows[first] { oldest := other; }
      forall k | k in ids ensures rows[oldest] <= rows[k] {
        assert k == first || k in rest;
      }
    } else {
      assert ids == {first};
    }
  }

  predicate Among(id: EventId, firstId: EventId, n: nat) { firstId <= id < firstId + n }

  /** n consecutive new ids. */
  function NewIds(firstId: EventId, n: nat): set<EventId> {
    set id: EventId | firstId <= id < firstId + n && Among(id, firstId, n)
  }

  /** The rows that inserting events with these times creates. */
  function NewRows(firstId: EventId, times: seq<int>): map<EventId, int> {
    map id | id in NewIds(firstId, |times|) :: times[id - firstId]
  }

  lemma {:induction false} NewIdsSize(firstId: EventId, n: nat)
    ensures |NewIds(firstId, n)| == n
  {
    if n == 0 {
      assert NewIds(firstId, 0) == {};
    } else {
      NewIdsSize(firstId, n - 1);
      assert NewIds(firstId, n) == NewIds(firstId, n - 1) + {firstId + n - 1};
    }
  }

  lemma NewRowsSize(firstId: EventId, times: seq<int>)
    ensures |NewRows(firstId, times)| == |times|
  {
    assert NewRows(firstId, times).Keys == NewIds(firstId, |times|);
    NewIdsSize(firstId, |times|);
  }

  lemma NewRowsAppend(base: map<EventId, int>, firstId: EventId, nextId: EventId, times: seq<int>, i: nat, j: nat)
    requires i <= j <= |times| && nextId == firstId + i
    ensures base + NewRows(firstId, times[..i]) + NewRows(nextId, times[i..j]) == base + NewRows(firstId, times[..j])
  {
  }

  // Seeded rows leave the old ones alone and are at most thirty days old.
  lemma SeededRows(base: map<EventId, int>, firstId: EventId, times: seq<int>, now: int)
    requires forall id | id in base :: id < firstId
    requires forall i | 0 <= i < |times| :: now - 30 * DAY_MS <= times[i] <= now
    ensures var rows := base + NewRows(firstId, times);
            && (forall id | id in base :: id in rows && rows[id] == base[id])
            && (forall id | id in rows && id !in base :: now - 30 * DAY_MS <= rows[id] <= now)
  {
  }

  /** An insert leaves under each new id the time of its event, and every old row as it was. */
  lemma NewRowsAt(base: map<EventId, int>, firstId: EventId, times: seq<int>)
    ensures var rows := base + NewRows(firstId, times);
            && (forall id | firstId <= id < firstId + |times| :: id in rows && rows[id] == times[id - firstId])
            && (forall id | id in base && id < firstId :: id in rows && rows[id] == base[id])
            && (forall id | id in rows :: id in base || firstId <= id < firstId + |times|)
  {
    var added := NewRows(firstId, times);
    forall id: EventId | firstId <= id < firstId + |times| ensures id in added {
      assert Among(id, firstId, |times|);
    }
  }

  lemma NewRowsOne(base: map<EventId, int>, id: EventId, time: int)
    ensures base + NewRows(id, [time]) == base[id := time]
  {
  }

  // A random age under thirty days, as a whole-millisecond instant before `now`.
  function SeedTime(now: int, draw: real): (t: int)
    requires 0.0 <= draw < 1.0
    ensures now - 30 * DAY_MS <= t <= now
  {
    var age := draw * (30 * DAY_MS) as real;
    assert 0.0 <= age <= (30 * DAY_MS) as real by { ScaleBounds(draw, (30 * DAY_MS) as real); }
    (now as real - age).Floor
  }

  function SeedTimes(now: int, draws: seq<real>): (times: seq<int>)
    requires forall i | 0 <= i < |draws| :: 0.0 <= draws[i] < 1.0
    ensures |times| == |draws|
    ensures forall i | 0 <= i < |times| :: now - 30 * DAY_MS <= times[i] <= now
  {
    seq(|draws|, i requires 0 <= i < |draws| => SeedTime(now, draws[i]))
  }

  /** Every whole millisecond of the last thirty days can be drawn. */
  lemma SeedTimesCoverTheWindow(now: int, age: int)
    requires 0 <= age < 30 * DAY_MS
    ensures var draw := age as real / (30 * DAY_MS) as real;
            0.0 <= draw < 1.0 && SeedTime(now, draw) == now - age
  {
    var window := (30 * DAY_MS) as real;
    var draw := age as real / window;
    assert draw * window == age as real;
    assert (now as real - age as real).Floor == now - age;
  }

  /** So seeding can put its events at any such instants. */
  lemma AnySeedTimesCanBeDrawn(now: int, ages: seq<int>) returns (draws: seq<real>)
    requires forall i | 0 <= i < |ages| :: 0 <= ages[i] < 30 * DAY_MS
    ensures |draws| == |ages| && forall i | 0 <= i < |draws| :: 0.0 <= draws[i] < 1.0
    ensures forall i | 0 <= i < |ages| :: SeedTimes(now, draws)[i] == now - ages[i]
  {
    draws := seq(|ages|, i requires 0 <= i < |ages| => ages[i] as real / (30 * DAY_MS) as real);
    forall i | 0 <= i < |ages| ensures 0.0 <= draws[i] < 1.0 && SeedTime(now, draws[i]) == now - ages[i] {
      SeedTimesCoverTheWindow(now, ages[i]);
    }
  }

  lemma ScaleBounds(x: real, k: real)
    requires 0.0 <= x < 1.0 && 0.0 < k
    ensures 0.0 <= x * k <= k
  {
  }

  // ---------------------------------------------------------------- the process

  // What the outside world contributes to one tick: clocks, the database size, random draws.
  datatype Readings = Readings(
    claimNow: int, historyNow: int, historyBytes: int, guardNow: int, bytes: int,
    checkClock: int, stampClock: int, recordNow: int, maintenanceNow: int,
    draws: seq<real>)

  // How many statements succeed before one fails, and whether that one has taken effect all the same.
  datatype Faults = Faults(working: nat, takesEffect: bool)

  // Two deletes, three selects and at most twenty inserts: all that a preparation can need.
  const PREPARATION_STATEMENTS := 25

  datatype Outcome = Refused | PausedByGuard | TooSoon | Emitted(at: int)

  predicate Usable(r: Readings) {
    && SEED_CAP <= |r.draws|
    && (forall i | 0 <= i < |r.draws| :: 0.0 <= r.draws[i] < 1.0)
  }

  class Producer {
    const cfg: Config
    const seedCount: Option<JsNumber>
    const me: ProcessId
    // the database
    var rows: map<EventId, int>
    var lease: Option<Lease>
    var nextId: EventId
    // the module variables
    var historyReady: bool
    var eventsSinceMaintenance: nat
    var storageGuardCheckedAt: int
    var writesPausedForStorage: bool
    // the most rows seen after any statement since the history became ready
    ghost var peak: nat

    // New ids are fresh, and the settings are within their clamps.
    ghost predicate FreshIds()
      reads this
    {
      && SEED_CAP <= cfg.maxEventRows && 30 <= cfg.retentionDays
      && (forall id | id in rows :: id < nextId)
    }

    ghost predicate Valid()
      reads this
    {
      && FreshIds()
      && eventsSinceMaintenance < 120
      && (historyReady ==>
            && |rows| <= cfg.maxEventRows + eventsSinceMaintenance
            && |rows| <= peak <= cfg.maxEventRows + 120)
    }

    /** A new process over whatever rows and lease earlier processes left behind. */
    constructor (env: Environment, me: ProcessId, rows: map<EventId, int>, lease: Option<Lease>, nextId: EventId)
      requires forall id | id in rows :: id < nextId
      ensures Valid() && cfg == Load(env) && seedCount == env.seedCount && this.me == me
      ensures this.rows == rows && this.lease == lease && !historyReady
    {
      SeedingTopsUp(env, 0);
      cfg, seedCount, this.me := Load(env), env.seedCount, me;
      this.rows, this.lease, this.nextId := rows, lease, nextId;
      historyReady, eventsSinceMaintenance := false, 0;
      storageGuardCheckedAt, writesPausedForStorage := 0, false;
      peak := 0;
    }

    /** One insert statement; its ids are fresh, so no row conflicts. */
    method InsertEvents(times: seq<int>)
      requires FreshIds()
      modifies `rows, `nextId, `peak
      ensures FreshIds() && nextId == old(nextId) + |times|
      ensures rows == old(rows) + NewRows(old(nextId), times)
      ensures |rows| == |old(rows)| + |times|
      ensures peak == Max(old(peak), |rows|)
    {
      NewRowsSize(nextId, times);
      DisjointSizes(rows, NewRows(nextId, times));
      rows := rows + NewRows(nextId, times);
      nextId := nextId + |times|;
      peak := Max(peak, |rows|);
    }

    /**
      Counts the rows, and tops the table up in chunks of 250.  Of a failed seeding there remain whole
      chunks, or everything when it is the last insert that failed and had taken effect.
     */
    method SeedHistoryIfNeeded(now: int, draws: seq<real>, faults: Faults) returns (ok: bool, ghost chunks: nat)
      requires FreshIds()
      requires SEED_CAP <= |draws| && forall i | 0 <= i < |draws| :: 0.0 <= draws[i] < 1.0
      modifies `rows, `nextId, `peak
      ensures FreshIds()
      ensures ok ==> |rows| == Max(|old(rows)|, SeedGoal(seedCount))
      ensures |old(rows)| <= |rows| <= Max(|old(rows)|, SeedGoal(seedCount))
      ensures |rows| == |old(rows)| + 250 * chunks || |rows| == Max(|old(rows)|, SeedGoal(seedCount))
      ensures forall id | id in old(rows) :: id in rows && rows[id] == old(rows)[id]
      ensures forall id | id in rows && id !in old(rows) :: now - 30 * DAY_MS <= rows[id] <= now
      ensures old(peak) <= peak <= Max(old(peak), |rows|) && old(nextId) <= nextId
      ensures 21 <= faults.working ==> ok
    {
      SeedingTopsUpTo(seedCount, |rows|);
      if faults.working == 0 {
        return false, 0;
      }
      var events := SeedTimes(now, draws[..MissingEvents(|rows|, seedCount)]);
      ghost var firstId := nextId;
      ghost var done: nat;
      ok, done, chunks := SendAll(events, Faults(faults.working - 1, faults.takesEffect));
      SeededRows(old(rows), firstId, events[..done], now);
    }

    // Inserts the events chunk by chunk, until a statement fails.
    method SendAll(events: seq<int>, faults: Faults) returns (ok: bool, ghost done: nat, ghost chunks: nat)
      requires FreshIds()
      modifies `rows, `nextId, `peak
      ensures Inserted(old(rows), old(nextId), old(peak), events, done)
      ensures done == 250 * chunks || done == |events|
      ensures ok <==> |events| <= 250 * faults.working
      ensures ok ==> done == |events|
    {
      ok, done := SendWorking(events, faults.working);
      chunks := faults.working;
      if !ok && faults.takesEffect {
        done := SendChunk(old(rows), old(nextId), old(peak), events, 250 * faults.working);
        chunks := chunks + 1;
      }
    }

    // The inserts that succeed.
    method SendWorking(events: seq<int>, working: nat) returns (ok: bool, ghost done: nat)
      requires FreshIds()
      modifies `rows, `nextId, `peak
      ensures Inserted(old(rows), old(nextId), old(peak), events, done)
      ensures ok <==> |events| <= 250 * working
      ensures done == if ok then |events| else 250 * working
    {
      var offset, sent := 0, 0;
      done := 0;
      InsertedNothing(events);
      while offset < |events|
        invariant offset == 250 * sent && sent <= working && offset - 250 < |events|
        invariant done == Min(offset, |events|) && Inserted(old(rows), old(nextId), old(peak), events, done)
      {
        if sent == working {
          return false, done;
        }
        done := SendChunk(old(rows), old(nextId), old(peak), events, offset);
        offset, sent := offset + 250, sent + 1;
      }
      return true, done;
    }

    // The table holds the old rows and the first `done` events, under consecutive new ids; the peak is up to date.
    ghost predicate Inserted(base: map<EventId, int>, firstId: EventId, top: nat, events: seq<int>, done: nat)
      reads this
    {
      && FreshIds() && done <= |events|
      && (forall id | id in base :: id < firstId)
      && nextId == firstId + done
      && rows == base + NewRows(firstId, events[..done])
      && |rows| == |base| + done
      && (peak == top || top <= peak == |rows|)
    }

    lemma InsertedNothing(events: seq<int>)
      requires FreshIds()
      ensures Inserted(rows, nextId, peak, events, 0)
    {
      assert NewRows(nextId, events[..0]) == map[];
    }

    method SendChunk(
        ghost base: map<EventId, int>, ghost firstId: EventId, ghost top: nat, events: seq<int>, offset: nat)
      returns (ghost done: nat)
      requires offset < |events| && Inserted(base, firstId, top, events, offset)
      modifies `rows, `nextId, `peak
      ensures done == Min(offset + 250, |events|) && Inserted(base, firstId, top, events, done)
    {
      var next := Min(offset + 250, |events|);
      NewRowsAppend(base, firstId, nextId, events, offset, next);
      InsertEvents(events[offset..next]);
      done := next;
    }

    /**
      Deletes the rows past the retention window, counts the others, and deletes the oldest beyond the
      cap.  A prune that fails leaves the table as it was, with the first delete done, or pruned.
     */
    method PruneHistoryIfNeeded(now: int, faults: Faults) returns (ok: bool, left: nat)
      requires FreshIds()
      modifies `rows
      ensures FreshIds()
      ensures ok ==> Pruned(old(rows), now - cfg.retentionDays * DAY_MS, cfg.maxEventRows, rows)
      ensures !ok ==> || rows == old(rows) || rows == NotOlderThan(old(rows), Cutoff(now))
                      || Pruned(old(rows), Cutoff(now), cfg.maxEventRows, rows)
      ensures 3 <= faults.working ==> ok && faults.working - 3 <= left
    {
      if faults.working > 0 || faults.takesEffect {
        rows := NotOlderThan(rows, Cutoff(now));
      }
      if faults.working < 2 {
        return false, 0;
      }
      var overflow := Max(|rows| - cfg.maxEventRows, 0);
      if overflow == 0 {
        return true, faults.working - 2;
      }
      if faults.working > 2 || faults.takesEffect {
        DeleteOldest(overflow);
      }
      if faults.working == 2 {
        return false, 0;
      }
      return true, faults.working - 3;
    }

    // DELETE ... ORDER BY event_timestamp ASC LIMIT overflow; ties may fall either way.
    method DeleteOldest(overflow: nat)
      requires FreshIds() && overflow <= |rows|
      modifies `rows
      ensures FreshIds()
      ensures rows.Keys <= old(rows).Keys && (forall id | id in rows :: rows[id] == old(rows)[id])
      ensures |rows| == |old(rows)| - overflow
      ensures KeepsNewest(old(rows), rows.Keys)
    {
      var kept := rows.Keys;
      var removed := 0;
      while removed < overflow
        invariant 0 <= removed <= overflow && rows == old(rows)
        invariant kept <= rows.Keys && |kept| == |rows| - removed
        invariant KeepsNewest(rows, kept)
      {
        ghost var _ := OldestExists(rows, kept);
        var victim :| victim in kept && forall k | k in kept :: rows[victim] <= rows[k];
        kept, removed := kept - {victim}, removed + 1;
      }
      rows := map id | id in kept :: rows[id];
      assert rows.Keys == kept;
    }

    predicate Mine()
      reads this
    {
      lease.Some? && lease.value.owner == me
    }

    predicate Claimable(now: int)
      reads this
    {
      lease.None? || Mine() || lease.value.expiresAt < now
    }

    method StorageAllowsWrite(force: bool, now: int, bytes: int) returns (allows: bool)
      modifies `storageGuardCheckedAt, `writesPausedForStorage
      ensures allows == !writesPausedForStorage
      ensures if !force && now - old(storageGuardCheckedAt) < 300_000
              then unchanged(`storageGuardCheckedAt) && unchanged(`writesPausedForStorage)
              else writesPausedForStorage == (bytes >= cfg.writeGuardBytes) && storageGuardCheckedAt == now
    {
      if !force && now - storageGuardCheckedAt < 300_000 {
        return !writesPausedForStorage;
      }
      storageGuardCheckedAt := now;
      writesPausedForStorage := bytes >= cfg.writeGuardBytes;
      return !writesPausedForStorage;
    }

    /** Takes a lease that is missing, its own or expired, and keeps its start and counter when it is its own. */
    method ClaimLease(now: int) returns (claimed: Option<Lease>)
      modifies `lease
      ensures claimed == ClaimStatement(old(lease), me, now)
      ensures claimed.Some? <==> old(Claimable(now))
      ensures claimed.Some? ==>
                claimed.value == Lease(
                  me, now + 30_000, if old(Mine()) then old(lease).value.lastStartedAt else now,
                  if old(lease).Some? then old(lease).value.lastEventAt else None,
                  if old(Mine()) then old(lease).value.eventsWritten else 0)
      ensures lease == if claimed.Some? then claimed else old(lease)
    {
      claimed := ClaimStatement(lease, me, now);
      if claimed.Some? {
        lease := claimed;
      }
    }

    /**
      First-tick preparation, which any of its statements may cut short; its module variable is set at the very
      end.
     */
    method PrepareHistory(r: Readings, faults: Faults) returns (ok: bool)
      requires FreshIds() && Usable(r) && !historyReady
      modifies `rows, `nextId, `peak, `historyReady, `storageGuardCheckedAt, `writesPausedForStorage
      ensures FreshIds() && historyReady == ok && old(nextId) <= nextId
      ensures SameFate(old(rows), rows, Cutoff(r.historyNow), cfg.maxEventRows, SeedGoal(seedCount))
      ensures ok ==> Prepared(old(rows), r) && peak == |rows| && storageGuardCheckedAt == r.historyNow
      ensures ok ==> writesPausedForStorage == (r.historyBytes >= cfg.writeGuardBytes)
      ensures PREPARATION_STATEMENTS <= faults.working ==> ok
    {
      ghost var cap, goal := cfg.maxEventRows, SeedGoal(seedCount);
      var left: nat;
      ok, left := PruneHistoryIfNeeded(r.historyNow, faults);
      ghost var pruned := rows;
      PruneKeepsFateAnyway(old(rows), Cutoff(r.historyNow), cap, pruned, goal);
      if !ok || left == 0 {
        return false;
      }
      SeedingTopsUpTo(seedCount, |rows|);
      var allowed := StorageAllowsWrite(true, r.historyNow, r.historyBytes);
      if allowed {
        ghost var chunks;
        ok, chunks := SeedHistoryIfNeeded(r.historyNow, r.draws, Faults(left - 1, faults.takesEffect));
        SeedKeepsFate(pruned, rows, Cutoff(r.historyNow), cap, goal);
        if !ok {
          return;
        }
      }
      historyReady, ok := true, true;
      peak := |rows|;
    }

    // A prepared table is pruned, and topped up to the goal unless the guard pauses writes.
    ghost predicate Prepared(before: map<EventId, int>, r: Readings)
      reads this
    {
      && |rows| <= cfg.maxEventRows
      && if r.historyBytes >= cfg.writeGuardBytes
         then Pruned(before, Cutoff(r.historyNow), cfg.maxEventRows, rows)
         else |rows| == PreparedSize(before, Cutoff(r.historyNow), cfg.maxEventRows, SeedGoal(seedCount))
    }

    lemma PruneKeepsFateAnyway(
        before: map<EventId, int>, cutoff: int, cap: int, after: map<EventId, int>, goal: nat)
      requires 0 <= cap
      requires after == before || after == NotOlderThan(before, cutoff) || Pruned(before, cutoff, cap, after)
      ensures SameFate(before, after, cutoff, cap, goal)
    {
      FirstDeleteKeepsFate(before, cutoff, cap, goal);
      if Pruned(before, cutoff, cap, after) { PruneKeepsFate(before, cutoff, cap, after, goal); }
    }

    // Whether a tick finds writes paused: a fresh reading is five minutes old at most.
    predicate FindsPaused(r: Readings)
      reads this
    {
      var checkedAt := if historyReady then storageGuardCheckedAt else r.historyNow;
      var paused := if historyReady then writesPausedForStorage else r.historyBytes >= cfg.writeGuardBytes;
      if r.guardNow - checkedAt < 300_000 then paused else r.bytes >= cfg.writeGuardBytes
    }

    function Cutoff(now: int): int { now - cfg.retentionDays * DAY_MS }

    /**
      What a tick's outcome says, and what it does to the lease: refused while another's lease runs; too
      soon, or else an event, as the cadence says; and the lease claimed, and extended by an event.
     */
    predicate LeaseFollows(before: Option<Lease>, r: Readings, outcome: Outcome, after: Option<Lease>) {
      var mine := before.Some? && before.value.owner == me;
      var last := if before.Some? then before.value.lastEventAt else None;
      var due := last.None? || last.value == 0 || r.checkClock - last.value >= cfg.eventIntervalMs;
      && (outcome.Refused? <==> before.Some? && !mine && r.claimNow <= before.value.expiresAt)
      && (outcome.TooSoon? ==> !due)
      && (outcome.Emitted? ==> due && outcome.at == r.stampClock)
      && after == if outcome.Refused? then before else
           Some(Lease(
             me, (if outcome.Emitted? then r.recordNow else r.claimNow) + 30_000,
             if mine then before.value.lastStartedAt else r.claimNow,
             if outcome.Emitted? then Some(r.stampClock) else last,
             (if mine then before.value.eventsWritten else 0) + if outcome.Emitted? then 1 else 0))
    }

    lemma LeaseOfTick(before: Option<Lease>, r: Readings)
      ensures var claimed := ClaimStatement(before, me, r.claimNow);
              && (claimed.None? ==> LeaseFollows(before, r, Refused, before))
              && (claimed.Some? ==>
                    && LeaseFollows(before, r, PausedByGuard, claimed)
                    && if CadenceAllows(claimed.value.lastEventAt, r.checkClock, cfg.eventIntervalMs)
                       then LeaseFollows(before, r, Emitted(r.stampClock),
                                         RecordStatement(claimed, me, r.stampClock, r.recordNow))
                       else LeaseFollows(before, r, TooSoon, claimed))
    {
    }

    /**
      One whole tick in which no statement fails: it keeps the row cap, its lease effects are the
      claim statement and, when an event is emitted, the record statement after it.
     */
    method Tick(r: Readings) returns (outcome: Outcome)
      requires Valid() && Usable(r)
      modifies this
      ensures Valid()
      ensures LeaseFollows(old(lease), r, outcome, lease)
      ensures outcome.Refused? ==> unchanged(this)
      ensures !outcome.Refused? ==> historyReady && (outcome.PausedByGuard? <==> old(FindsPaused(r)))
      ensures old(historyReady) && !outcome.Emitted? ==> rows == old(rows)
      ensures !old(historyReady) && (outcome.PausedByGuard? || outcome.TooSoon?) ==> Prepared(old(rows), r)
      ensures outcome.Emitted? && old(eventsSinceMaintenance) < 119 ==>
                exists id :: id in rows && id !in old(rows) && rows[id] == outcome.at
      ensures old(historyReady) && outcome.Emitted? ==>
                EmitEffect(old(rows)[old(nextId) := outcome.at], old(eventsSinceMaintenance), r)
    {
      LeaseOfTick(lease, r);
      var claimed := ClaimLease(r.claimNow);
      if claimed.None? {
        return Refused;
      }
      if !historyReady {
        var _ := PrepareHistory(r, Faults(PREPARATION_STATEMENTS, false));
      }
      var allowed := StorageAllowsWrite(false, r.guardNow, r.bytes);
      if !allowed {
        return PausedByGuard;
      }
      if !CadenceAllows(claimed.value.lastEventAt, r.checkClock, cfg.eventIntervalMs) {
        return TooSoon;
      }
      ghost var id := nextId;
      Emit(r);
      assert old(eventsSinceMaintenance) < 119 ==> id in rows && rows[id] == r.stampClock;
      return Emitted(r.stampClock);
    }

    // The insert, the owner-guarded update and, every 120 events, the maintenance.
    method Emit(r: Readings)
      requires Valid() && historyReady && lease.Some?
      modifies this
      ensures Valid() && historyReady
      ensures lease == if old(Mine()) then RecordStatement(old(lease), me, r.stampClock, r.recordNow) else old(lease)
      ensures EmitEffect(old(rows)[old(nextId) := r.stampClock], old(eventsSinceMaintenance), r)
    {
      InsertEvents([r.stampClock]);
      NewRowsOne(old(rows), old(nextId), r.stampClock);
      var recorded := RecordStatement(lease, me, r.stampClock, r.recordNow);
      if recorded.Some? {
        lease := recorded;
      }
      eventsSinceMaintenance := eventsSinceMaintenance + 1;
      if eventsSinceMaintenance >= 120 {
        Maintain(r);
      }
    }

    // The rows after an emitted event: the table grown by it, pruned when maintenance was due.
    ghost predicate EmitEffect(grown: map<EventId, int>, sinceMaintenance: nat, r: Readings)
      reads this
    {
      if sinceMaintenance < 119
      then rows == grown && eventsSinceMaintenance == sinceMaintenance + 1
      else Pruned(grown, Cutoff(r.maintenanceNow), cfg.maxEventRows, rows) && eventsSinceMaintenance == 0
    }

    method Maintain(r: Readings)
      requires FreshIds() && |rows| <= peak
      modifies `rows, `eventsSinceMaintenance, `storageGuardCheckedAt, `writesPausedForStorage
      ensures FreshIds() && |rows| <= peak && |rows| <= cfg.maxEventRows && eventsSinceMaintenance == 0
      ensures Pruned(old(rows), Cutoff(r.maintenanceNow), cfg.maxEventRows, rows)
    {
      eventsSinceMaintenance := 0;
      var _, _ := PruneHistoryIfNeeded(r.maintenanceNow, Faults(3, false));
      SubsetSize(rows.Keys, old(rows).Keys);
      var _ := StorageAllowsWrite(true, r.maintenanceNow, r.bytes);
    }

    /** Any number of heartbeats of one process: the cap holds between them and at every statement. */
    method RunHeartbeats(readings: seq<Readings>)
        returns (outcomes: seq<Outcome>, ghost leases: seq<Option<Lease>>)
      requires Valid() && forall i | 0 <= i < |readings| :: Usable(readings[i])
      modifies this
      ensures Valid()
      ensures leases != [] && leases[0] == old(lease) && leases[|leases| - 1] == lease
      ensures LeasesFollow(leases, readings, outcomes)
      ensures historyReady ==>
                && |rows| <= cfg.maxEventRows + eventsSinceMaintenance
                && peak <= cfg.maxEventRows + 120
    {
      outcomes, leases := [], [lease];
      for i := 0 to |readings|
        invariant Valid() && |outcomes| == i && leases != []
        invariant leases[0] == old(lease) && leases[|leases| - 1] == lease
        invariant LeasesFollow(leases, readings[..i], outcomes)
      {
        var outcome := Tick(readings[i]);
        outcomes, leases := outcomes + [outcome], leases + [lease];
      }
      assert readings[..|readings|] == readings;
    }

    // The lease before, between and after the heartbeats.
    ghost predicate LeasesFollow(leases: seq<Option<Lease>>, readings: seq<Readings>, outcomes: seq<Outcome>) {
      && |leases| == |readings| + 1 && |outcomes| == |readings|
      && forall i | 0 <= i < |readings| :: LeaseFollows(leases[i], readings[i], outcomes[i], leases[i + 1])
    }

    /** The events of successive heartbeats are at least one interval apart. */
    lemma {:induction false} HeartbeatsKeepTheCadence(
        leases: seq<Option<Lease>>, readings: seq<Readings>, outcomes: seq<Outcome>, i: nat, j: nat)
      requires LeasesFollow(leases, readings, outcomes) && 0 < cfg.eventIntervalMs
      requires forall k | 0 <= k < |readings| :: 0 < readings[k].checkClock <= readings[k].stampClock
      requires i < j < |outcomes| && outcomes[i].Emitted? && outcomes[j].Emitted?
      ensures outcomes[i].at + cfg.eventIntervalMs <= outcomes[j].at
    {
      LastEventStays(leases, readings, outcomes, i, j);
      assert LeaseFollows(leases[j], readings[j], outcomes[j], leases[j + 1]);
    }

    lemma {:induction false} LastEventStays(
        leases: seq<Option<Lease>>, readings: seq<Readings>, outcomes: seq<Outcome>, i: nat, j: nat)
      requires LeasesFollow(leases, readings, outcomes) && 0 < cfg.eventIntervalMs
      requires forall k | 0 <= k < |readings| :: 0 < readings[k].checkClock <= readings[k].stampClock
      requires i < j <= |outcomes| && outcomes[i].Emitted?
      ensures leases[j].Some? && leases[j].value.lastEventAt.Some?
      ensures 0 < outcomes[i].at <= leases[j].value.lastEventAt.value
    {
      assert LeaseFollows(leases[j - 1], readings[j - 1], outcomes[j - 1], leases[j - 1 + 1]);
      if i < j - 1 { LastEventStays(leases, readings, outcomes, i, j - 1); }
    }

    // What the attempts so far have left has the fate of the original table.
    ghost predicate KeptFate(original: map<EventId, int>, readings: seq<Readings>, used: nat)
      requires used <= |readings|
      reads this
    {
      if used == 0 then rows == original
      else
        var cutoff := Cutoff(readings[used - 1].historyNow);
        SameFate(original, rows, cutoff, cfg.maxEventRows, SeedGoal(seedCount))
    }

    // One more attempt.
    method RetryOnce(
        ghost original: map<EventId, int>, ghost readings: seq<Readings>, used: nat, r: Readings, f: Faults)
      requires FreshIds() && !historyReady && used < |readings| && r == readings[used] && Usable(r)
      requires used > 0 ==> readings[used - 1].historyNow <= r.historyNow
      requires KeptFate(original, readings, used)
      modifies this
      ensures FreshIds() && KeptFate(original, readings, used + 1)
      ensures PREPARATION_STATEMENTS <= f.working ==> historyReady
      ensures historyReady && !writesPausedForStorage ==>
                |rows| == PreparedSize(original, Cutoff(r.historyNow), cfg.maxEventRows, SeedGoal(seedCount))
    {
      ghost var before := rows;
      var _ := PrepareHistory(r, f);
      if used > 0 {
        FateThrough(original, before, rows, Cutoff(readings[used - 1].historyNow), Cutoff(r.historyNow),
                    cfg.maxEventRows, SeedGoal(seedCount));
        FateNow(original, before, Cutoff(readings[used - 1].historyNow), Cutoff(r.historyNow),
                cfg.maxEventRows, SeedGoal(seedCount));
      }
    }

    /**
      Preparation interrupted at any of its statements, and retried at later heartbeats by this process
      or another, ends, once an attempt is complete with writes allowed, with as many rows as one
      uninterrupted preparation of the original table.
     */
    method RetryPreparation(readings: seq<Readings>, faults: seq<Faults>) returns (used: nat)
      requires FreshIds() && !historyReady && |readings| == |faults|
      requires forall i | 0 <= i < |readings| :: Usable(readings[i])
      requires forall i, j | 0 <= i < j < |readings| :: readings[i].historyNow <= readings[j].historyNow
      modifies this
      ensures FreshIds() && used <= |readings|
      ensures historyReady ==> 0 < used
      ensures historyReady && !writesPausedForStorage ==>
                |rows| == PreparedSize(old(rows), Cutoff(readings[used - 1].historyNow),
                                       cfg.maxEventRows, SeedGoal(seedCount))
      ensures (exists i | 0 <= i < |faults| :: PREPARATION_STATEMENTS <= faults[i].working) ==> historyReady
    {
      used := 0;
      while used < |readings|
        invariant FreshIds() && !historyReady && used <= |readings|
        invariant KeptFate(old(rows), readings, used)
        invariant forall j | 0 <= j < used :: faults[j].working < PREPARATION_STATEMENTS
      {
        RetryOnce(old(rows), readings, used, readings[used], faults[used]);
        used := used + 1;
        if historyReady {
          return;
        }
      }
    }
  }

  lemma DisjointSizes(a: map<EventId, int>, b: map<EventId, int>)
    requires a.Keys !! b.Keys
    ensures |a + b| == |a| + |b|
  {
  }

  /** What seeding adds at an instant, a prune at that instant keeps, whatever else it removes. */
  lemma SeededRowsSurvivePruning(
      env: Environment, now: int, before: map<EventId, int>, after: map<EventId, int>, id: EventId)
    requires id in before && now - 30 * DAY_MS <= before[id]
    requires |before| <= Load(env).maxEventRows
    requires Pruned(before, now - Load(env).retentionDays * DAY_MS, Load(env).maxEventRows, after)
    ensures id in after && after[id] == before[id]
  {
    SeedingTopsUp(env, 0);
    PruneLeavesRecentRows(before, now - Load(env).retentionDays * DAY_MS, Load(env).maxEventRows, after);
  }
}
