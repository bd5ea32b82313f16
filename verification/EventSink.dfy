/**
  The Kafka-to-PostgreSQL sink: poll, insert or ignore, commit the database, commit the offsets.  A
  failed batch is rolled back, but the consumer goes on from where it had polled to.
 */
module EventSink {
  import opened Options
  import opened Contracts

  datatype Coord = Coord(partition: nat, offset: nat)

  // What a message turns out to be: a payload, something that raises ValueError, or something that raises another
  // exception.
  datatype Message = Payload(event: Event) | Unparsable | Poison

  datatype Row = Row(coord: Coord, event: Event)

  // Everything each partition will ever hold; what has not been produced yet has simply not been polled yet.
  type Log = seq<seq<Message>>

  predicate InLog(log: Log, c: Coord) { c.partition < |log| && c.offset < |log[c.partition]| }

  function MessageAt(log: Log, c: Coord): Message
    requires InLog(log, c)
  {
    log[c.partition][c.offset]
  }

  /** The required fields are there; anything else is discarded with a log line, or fails the whole batch. */
  predicate WellFormed(m: Message) { m.Payload? && Missing(m.event) == [] }

  predicate Discarded(m: Message) { m.Unparsable? || (m.Payload? && Missing(m.event) != []) }

  // ---------------------------------------------------------------- one insert, one batch

  predicate HasCoord(table: map<Id, Row>, c: Coord) { exists id | id in table :: table[id].coord == c }

  /** INSERT ... ON CONFLICT DO NOTHING, where both the event id and the coordinates are unique. */
  function Insert(table: map<Id, Row>, log: Log, c: Coord): map<Id, Row>
    requires InLog(log, c)
  {
    var m := MessageAt(log, c);
    if !WellFormed(m) || m.event.eventId.value in table || HasCoord(table, c) then table
    else table[m.event.eventId.value := Row(c, m.event)]
  }

  predicate AllInLog(log: Log, batch: seq<Coord>) { forall i | 0 <= i < |batch| :: InLog(log, batch[i]) }

  function Staged(table: map<Id, Row>, log: Log, batch: seq<Coord>): map<Id, Row>
    requires AllInLog(log, batch)
  {
    if batch == [] then table
    else Insert(Staged(table, log, batch[..|batch| - 1]), log, batch[|batch| - 1])
  }

  // ---------------------------------------------------------------- one cycle of the polling loop

  // A commit reports success only when it has taken effect; a failed one may or may not have.
  datatype Outcome = Outcome(reported: bool, effective: bool)

  /**
    One pass of the loop.  The poll hands out `batch`, in any order, and moves the positions to `polled`;
    the statement at `failsAt`, if there is one, raises; and the process may die before its next poll,
    with the commits that it had not reached counted as not effective.
   */
  datatype Cycle = Cycle(
    batch: seq<Coord>, polled: seq<nat>, failsAt: nat, database: Outcome, offsets: Outcome, dies: bool)

  datatype Sink = Sink(table: map<Id, Row>, committed: seq<nat>, position: seq<nat>, skipped: set<Coord>)

  predicate Within(log: Log, positions: seq<nat>) {
    |positions| == |log| && forall p | 0 <= p < |log| :: positions[p] <= |log[p]|
  }

  /** The poll returns exactly the records between the old positions and the new. */
  ghost predicate IsPoll(log: Log, position: seq<nat>, batch: seq<Coord>, polled: seq<nat>) {
    && Within(log, position) && Within(log, polled) && AllInLog(log, batch)
    && (forall p | 0 <= p < |log| :: position[p] <= polled[p])
    && (forall c :: c in batch <==> c.partition < |log| && position[c.partition] <= c.offset < polled[c.partition])
  }

  ghost predicate Possible(log: Log, s: Sink, c: Cycle) {
    && IsPoll(log, s.position, c.batch, c.polled)
    && (c.database.reported ==> c.database.effective) && (c.offsets.reported ==> c.offsets.effective)
  }

  predicate Raises(log: Log, c: Cycle)
    requires AllInLog(log, c.batch)
  {
    c.failsAt < |c.batch| || exists i | 0 <= i < |c.batch| :: MessageAt(log, c.batch[i]).Poison?
  }

  predicate Stored(log: Log, c: Cycle)
    requires AllInLog(log, c.batch)
  {
    !Raises(log, c) && c.database.effective
  }

  predicate Acknowledged(log: Log, c: Cycle)
    requires AllInLog(log, c.batch)
  {
    c.batch != [] && !Raises(log, c) && c.database.reported && c.offsets.effective
  }

  /** A surviving process that stored nothing has rolled back, and will not poll those records again. */
  predicate RolledBack(log: Log, c: Cycle)
    requires AllInLog(log, c.batch)
  {
    !Stored(log, c) && !c.dies
  }

  function Next(log: Log, s: Sink, c: Cycle): Sink
    requires AllInLog(log, c.batch)
  {
    var committed := if Acknowledged(log, c) then c.polled else s.committed;
    Sink(
      if Stored(log, c) then Staged(s.table, log, c.batch) else s.table,
      committed,
      if c.dies then committed else c.polled,
      s.skipped + if RolledBack(log, c) then set x | x in c.batch else {})
  }

  function Fresh(log: Log): Sink { Sink(map[], seq(|log|, i => 0), seq(|log|, i => 0), {}) }

  ghost predicate Legal(log: Log, cycles: seq<Cycle>)
    decreases |cycles|, 0
  {
    cycles != [] ==>
      var before := cycles[..|cycles| - 1];
      Legal(log, before) && Possible(log, RunOf(log, before), cycles[|cycles| - 1])
  }

  ghost function RunOf(log: Log, cycles: seq<Cycle>): Sink
    requires Legal(log, cycles)
    decreases |cycles|, 1
  {
    if cycles == [] then Fresh(log)
    else Next(log, RunOf(log, cycles[..|cycles| - 1]), cycles[|cycles| - 1])
  }

  // ---------------------------------------------------------------- what a batch does to the table

  /** Every row is a record of the log, under the id that the record carries. */
  ghost predicate RowsAreRecords(log: Log, table: map<Id, Row>) {
    forall id | id in table ::
      && InLog(log, table[id].coord) && WellFormed(MessageAt(log, table[id].coord))
      && table[id].event == MessageAt(log, table[id].coord).event && table[id].event.eventId == Some(id)
  }

  ghost predicate Keeps(before: map<Id, Row>, after: map<Id, Row>) {
    forall id | id in before :: id in after && after[id] == before[id]
  }

  // The record is in the table under its id, though perhaps as another delivery of it.
  predicate Present(log: Log, table: map<Id, Row>, c: Coord)
    requires InLog(log, c)
  {
    WellFormed(MessageAt(log, c)) && MessageAt(log, c).event.eventId.value in table
  }

  lemma InsertPresents(table: map<Id, Row>, log: Log, c: Coord)
    requires InLog(log, c) && RowsAreRecords(log, table)
    ensures var after := Insert(table, log, c);
            && RowsAreRecords(log, after) && Keeps(table, after)
            && (WellFormed(MessageAt(log, c)) ==> Present(log, after, c))
            && (forall id | id in after && id !in table :: after[id].coord == c)
  {
  }

  // What a batch has done to the table so far.
  ghost predicate Presents(log: Log, table: map<Id, Row>, batch: seq<Coord>, after: map<Id, Row>)
    requires AllInLog(log, batch)
  {
    && RowsAreRecords(log, after) && Keeps(table, after)
    && (forall c | c in batch && WellFormed(MessageAt(log, c)) :: Present(log, after, c))
    && (forall id | id in after && id !in table :: after[id].coord in batch)
  }

  lemma PresentsOneMore(log: Log, table: map<Id, Row>, batch: seq<Coord>, after: map<Id, Row>, c: Coord)
    requires AllInLog(log, batch) && InLog(log, c) && Presents(log, table, batch, after)
    ensures Presents(log, table, batch + [c], Insert(after, log, c))
  {
    InsertPresents(after, log, c);
    var inserted := Insert(after, log, c);
    forall x | x in batch + [c] && WellFormed(MessageAt(log, x)) ensures Present(log, inserted, x) {
      if x != c { assert Present(log, after, x); }
    }
    forall id | id in inserted && id !in table ensures inserted[id].coord in batch + [c] {
      if id in after { assert inserted[id] == after[id]; }
    }
  }

  /**
    A staged batch keeps every row, adds records of the batch only, and leaves each of its well-formed records
    present.
   */
  lemma {:induction false} StagedPresents(table: map<Id, Row>, log: Log, batch: seq<Coord>)
    requires AllInLog(log, batch) && RowsAreRecords(log, table)
    ensures Presents(log, table, batch, Staged(table, log, batch))
  {
    if batch != [] {
      var n := |batch| - 1;
      StagedPresents(table, log, batch[..n]);
      PresentsOneMore(log, table, batch[..n], Staged(table, log, batch[..n]), batch[n]);
      assert batch == batch[..n] + [batch[n]];
    }
  }

  /** Delivering again what is already present, or discarded, leaves the table as it is. */
  lemma {:induction false} RedeliveryChangesNothing(table: map<Id, Row>, log: Log, batch: seq<Coord>)
    requires AllInLog(log, batch)
    requires forall i | 0 <= i < |batch| :: WellFormed(MessageAt(log, batch[i])) ==> Present(log, table, batch[i])
    ensures Staged(table, log, batch) == table
  {
    if batch != [] {
      RedeliveryChangesNothing(table, log, batch[..|batch| - 1]);
    }
  }

  // ---------------------------------------------------------------- no record is lost silently

  ghost predicate Accounted(log: Log, s: Sink, c: Coord) {
    InLog(log, c) && (Present(log, s.table, c) || Discarded(MessageAt(log, c)) || c in s.skipped)
  }

  ghost predicate AccountedBelow(log: Log, s: Sink, positions: seq<nat>) {
    && |positions| == |log|
    && forall c: Coord | c.partition < |log| && c.offset < positions[c.partition] :: Accounted(log, s, c)
  }

  ghost predicate Sound(log: Log, s: Sink) {
    && Within(log, s.committed) && Within(log, s.position)
    && (forall p | 0 <= p < |log| :: s.committed[p] <= s.position[p])
    && RowsAreRecords(log, s.table)
    && AccountedBelow(log, s, s.position)
  }

  lemma CycleAccounts(log: Log, s: Sink, c: Cycle)
    requires Sound(log, s) && Possible(log, s, c)
    ensures RowsAreRecords(log, Next(log, s, c).table) && Keeps(s.table, Next(log, s, c).table)
    ensures Stored(log, c) || RolledBack(log, c) ==> AccountedBelow(log, Next(log, s, c), c.polled)
    ensures AccountedBelow(log, Next(log, s, c), s.position)
  {
    StagedPresents(s.table, log, c.batch);
    var s' := Next(log, s, c);
    forall x: Coord | x.partition < |log| && x.offset < s.position[x.partition] ensures Accounted(log, s', x) {
      assert Accounted(log, s, x);
    }
    if Stored(log, c) || RolledBack(log, c) {
      forall x: Coord | x.partition < |log| && x.offset < c.polled[x.partition] ensures Accounted(log, s', x) {
        if s.position[x.partition] <= x.offset { BatchAccounted(log, s, c, x); }
      }
    }
  }

  lemma BatchAccounted(log: Log, s: Sink, c: Cycle, x: Coord)
    requires RowsAreRecords(log, s.table) && Possible(log, s, c) && (Stored(log, c) || RolledBack(log, c))
    requires x.partition < |log| && s.position[x.partition] <= x.offset < c.polled[x.partition]
    ensures Accounted(log, Next(log, s, c), x)
  {
    assert x in c.batch;
    if Stored(log, c) {
      var i :| 0 <= i < |c.batch| && c.batch[i] == x;
      assert !MessageAt(log, c.batch[i]).Poison?;
      StagedPresents(s.table, log, c.batch);
    }
  }

  lemma CycleKeepsSound(log: Log, s: Sink, c: Cycle)
    requires Sound(log, s) && Possible(log, s, c)
    ensures Sound(log, Next(log, s, c))
  {
    CycleAccounts(log, s, c);
    var s' := Next(log, s, c);
    if c.dies && !Acknowledged(log, c) {
      assert forall x: Coord | x.partition < |log| && x.offset < s.committed[x.partition] ::
          x.offset < s.position[x.partition];
    }
  }

  /**
    In every run, with failures, deaths and restarts anywhere, each record below a committed offset is
    in the table by its event id, was discarded as malformed, or was in a batch that was rolled back.
   */
  lemma {:induction false} NothingIsLostSilently(log: Log, cycles: seq<Cycle>)
    requires Legal(log, cycles)
    ensures Sound(log, RunOf(log, cycles))
    ensures AccountedBelow(log, RunOf(log, cycles), RunOf(log, cycles).committed)
  {
    if cycles != [] {
      NothingIsLostSilently(log, cycles[..|cycles| - 1]);
      CycleKeepsSound(log, RunOf(log, cycles[..|cycles| - 1]), cycles[|cycles| - 1]);
    }
    var s := RunOf(log, cycles);
    assert forall x: Coord | x.partition < |log| && x.offset < s.committed[x.partition] ::
        x.offset < s.position[x.partition];
  }

  // ---------------------------------------------------------------- offsets and rollbacks, told by the cycles

  // Every statement of the batch went through.
  ghost predicate StagesAll(log: Log, c: Cycle) {
    && AllInLog(log, c.batch) && |c.batch| <= c.failsAt
    && forall i | 0 <= i < |c.batch| :: !MessageAt(log, c.batch[i]).Poison?
  }

  // The offsets are committed only after a batch whose database commit had reported success.
  ghost predicate Commits(log: Log, c: Cycle) {
    c.batch != [] && StagesAll(log, c) && c.database.reported && c.offsets.effective
  }

  ghost predicate LastCommit(log: Log, cycles: seq<Cycle>, j: int) {
    0 <= j < |cycles| && Commits(log, cycles[j]) && forall k | j < k < |cycles| :: !Commits(log, cycles[k])
  }

  // The process lived on although its batch is not in the table.
  ghost predicate SkippedBy(log: Log, c: Cycle, x: Coord) {
    x in c.batch && !c.dies && !(StagesAll(log, c) && c.database.effective)
  }

  lemma SkippedBefore(log: Log, cycles: seq<Cycle>, n: nat, x: Coord)
    requires |cycles| == n + 1
    ensures (exists j :: 0 <= j <= n && SkippedBy(log, cycles[j], x)) <==>
            (exists j :: 0 <= j < n && SkippedBy(log, cycles[..n][j], x)) || SkippedBy(log, cycles[n], x)
  {
    if j :| 0 <= j < n && SkippedBy(log, cycles[..n][j], x) { assert SkippedBy(log, cycles[j], x); }
    if j :| 0 <= j <= n && SkippedBy(log, cycles[j], x) {
      if j < n { assert SkippedBy(log, cycles[..n][j], x); }
    }
  }

  /** A record was skipped exactly when a process lived on after a batch that held it and is not in the table. */
  lemma {:induction false} SkippedExactly(log: Log, cycles: seq<Cycle>, x: Coord)
    requires Legal(log, cycles)
    ensures x in RunOf(log, cycles).skipped <==> exists j :: 0 <= j < |cycles| && SkippedBy(log, cycles[j], x)
  {
    if cycles != [] {
      var n := |cycles| - 1;
      SkippedExactly(log, cycles[..n], x);
      SkippedBefore(log, cycles, n, x);
    }
  }

  lemma NextOffsets(log: Log, s: Sink, c: Cycle)
    requires AllInLog(log, c.batch)
    ensures Next(log, s, c).committed == if Commits(log, c) then c.polled else s.committed
    ensures Next(log, s, c).position == if c.dies then Next(log, s, c).committed else c.polled
  {
  }

  lemma LastCommitBefore(log: Log, cycles: seq<Cycle>, n: nat, j: int)
    requires |cycles| == n + 1 && !Commits(log, cycles[n])
    ensures LastCommit(log, cycles, j) ==> LastCommit(log, cycles[..n], j) && cycles[..n][j] == cycles[j]
  {
  }

  /** The committed offsets are those of the last cycle that stored a batch and then committed it to Kafka. */
  lemma {:induction false} CommittedExactly(log: Log, cycles: seq<Cycle>, j: int)
    requires Legal(log, cycles) && LastCommit(log, cycles, j)
    ensures RunOf(log, cycles).committed == cycles[j].polled
    decreases |cycles|
  {
    var n := |cycles| - 1;
    NextOffsets(log, RunOf(log, cycles[..n]), cycles[n]);
    if !Commits(log, cycles[n]) {
      LastCommitBefore(log, cycles, n, j);
      CommittedExactly(log, cycles[..n], j);
    }
  }

  /** And they are the earliest ones as long as no cycle has committed. */
  lemma {:induction false} NothingCommitted(log: Log, cycles: seq<Cycle>)
    requires Legal(log, cycles) && forall j | 0 <= j < |cycles| :: !Commits(log, cycles[j])
    ensures RunOf(log, cycles).committed == seq(|log|, i => 0)
  {
    if cycles != [] {
      var before := cycles[..|cycles| - 1];
      assert forall j | 0 <= j < |before| :: before[j] == cycles[j];
      NothingCommitted(log, before);
      NextOffsets(log, RunOf(log, before), cycles[|cycles| - 1]);
    }
  }

  /** A living process goes on from where it polled to, a new one from the committed offsets. */
  lemma {:induction false} PositionExactly(log: Log, cycles: seq<Cycle>)
    requires Legal(log, cycles) && cycles != []
    ensures var s, last := RunOf(log, cycles), cycles[|cycles| - 1];
            s.position == if last.dies then s.committed else last.polled
  {
    NextOffsets(log, RunOf(log, cycles[..|cycles| - 1]), cycles[|cycles| - 1]);
  }

  ghost predicate NoRollback(log: Log, cycles: seq<Cycle>)
    requires Legal(log, cycles)
  {
    forall i | 0 <= i < |cycles| :: AllInLog(log, cycles[i].batch) && !RolledBack(log, cycles[i])
  }

  lemma {:induction false} NothingSkipped(log: Log, cycles: seq<Cycle>)
    requires Legal(log, cycles) && NoRollback(log, cycles)
    ensures RunOf(log, cycles).skipped == {}
  {
    if cycles != [] {
      var before := cycles[..|cycles| - 1];
      assert forall i | 0 <= i < |before| :: before[i] == cycles[i];
      NothingSkipped(log, before);
    }
  }

  /** Without a rollback in a surviving process, every well-formed record below a committed offset is in the table. */
  lemma {:induction false} NoRollbackNoLoss(log: Log, cycles: seq<Cycle>, c: Coord)
    requires Legal(log, cycles) && NoRollback(log, cycles)
    requires InLog(log, c) && WellFormed(MessageAt(log, c))
    requires c.partition < |RunOf(log, cycles).committed| && c.offset < RunOf(log, cycles).committed[c.partition]
    ensures Present(log, RunOf(log, cycles).table, c)
  {
    NothingIsLostSilently(log, cycles);
    NothingSkipped(log, cycles);
    assert Accounted(log, RunOf(log, cycles), c);
  }

  ghost predicate OneContentPerId(log: Log) {
    forall c, d | InLog(log, c) && InLog(log, d) && WellFormed(MessageAt(log, c)) && WellFormed(MessageAt(log, d))
                  && MessageAt(log, c).event.eventId == MessageAt(log, d).event.eventId ::
      MessageAt(log, c) == MessageAt(log, d)
  }

  ghost predicate CommittedAll(log: Log, s: Sink) {
    |s.committed| == |log| && forall p | 0 <= p < |log| :: s.committed[p] == |log[p]|
  }

  /** However they were cut, failed and restarted, two rollback-free runs over the whole log hold the same events. */
  lemma {:induction false} CompleteRunsAgree(log: Log, cycles: seq<Cycle>, others: seq<Cycle>)
    requires Legal(log, cycles) && NoRollback(log, cycles) && CommittedAll(log, RunOf(log, cycles))
    requires Legal(log, others) && NoRollback(log, others) && CommittedAll(log, RunOf(log, others))
    requires OneContentPerId(log)
    ensures var s, t := RunOf(log, cycles).table, RunOf(log, others).table;
            s.Keys == t.Keys && forall id | id in s :: s[id].event == t[id].event
  {
    HoldsEveryRecord(log, cycles, others);
    HoldsEveryRecord(log, others, cycles);
  }

  lemma {:induction false} HoldsEveryRecord(log: Log, cycles: seq<Cycle>, others: seq<Cycle>)
    requires Legal(log, cycles) && Legal(log, others) && NoRollback(log, others)
    requires CommittedAll(log, RunOf(log, others))
    requires OneContentPerId(log)
    ensures var s, t := RunOf(log, cycles).table, RunOf(log, others).table;
            forall id | id in s :: id in t && s[id].event == t[id].event
  {
    NothingIsLostSilently(log, cycles);
    NothingIsLostSilently(log, others);
    var s, t := RunOf(log, cycles).table, RunOf(log, others).table;
    forall id | id in s ensures id in t && s[id].event == t[id].event {
      NoRollbackNoLoss(log, others, s[id].coord);
      assert MessageAt(log, s[id].coord) == MessageAt(log, t[id].coord);
    }
  }

  // ---------------------------------------------------------------- what a rollback loses

  // The cycle stored its batch, and a well-formed record of the batch carries the id.
  ghost predicate Brings(log: Log, c: Cycle, id: Id) {
    && AllInLog(log, c.batch) && Stored(log, c)
    && exists y :: y in c.batch && WellFormed(MessageAt(log, y)) && MessageAt(log, y).event.eventId == Some(id)
  }

  lemma CycleBrings(log: Log, s: Sink, c: Cycle, id: Id)
    requires Sound(log, s) && Possible(log, s, c)
    ensures id in Next(log, s, c).table <==> id in s.table || Brings(log, c, id)
  {
    StagedPresents(s.table, log, c.batch);
    var after := Staged(s.table, log, c.batch);
    if Stored(log, c) && id in after && id !in s.table {
      var y := after[id].coord;
      assert y in c.batch && WellFormed(MessageAt(log, y)) && MessageAt(log, y).event.eventId == Some(id);
    }
  }

  ghost predicate Brought(log: Log, cycles: seq<Cycle>, id: Id) {
    exists i :: 0 <= i < |cycles| && Brings(log, cycles[i], id)
  }

  lemma {:induction false} TableIsWhatWasBrought(log: Log, cycles: seq<Cycle>, id: Id)
    requires Legal(log, cycles)
    ensures id in RunOf(log, cycles).table <==> Brought(log, cycles, id)
  {
    if cycles != [] {
      var n := |cycles| - 1;
      var before := cycles[..n];
      TableIsWhatWasBrought(log, before, id);
      NothingIsLostSilently(log, before);
      CycleBrings(log, RunOf(log, before), cycles[n], id);
      if Brought(log, before, id) {
        var i :| 0 <= i < n && Brings(log, before[i], id);
        assert Brings(log, cycles[i], id);
      }
      if Brought(log, cycles, id) && !Brings(log, cycles[n], id) {
        var i :| 0 <= i <= n && Brings(log, cycles[i], id);
        assert Brings(log, before[i], id);
      }
    }
  }

  /**
    Over any whole run, a well-formed record, below a committed offset or not, is present exactly when
    some cycle that stored its batch held a well-formed record with its id.
   */
  lemma {:induction false} PresentExactly(log: Log, cycles: seq<Cycle>, x: Coord)
    requires Legal(log, cycles) && InLog(log, x) && WellFormed(MessageAt(log, x))
    ensures Present(log, RunOf(log, cycles).table, x) <==> Brought(log, cycles, MessageAt(log, x).event.eventId.value)
  {
    TableIsWhatWasBrought(log, cycles, MessageAt(log, x).event.eventId.value);
  }

  /**
    A rollback that the process survives, then a completed cycle: the offsets of both batches are
    committed, and a well-formed record of the first batch is in the table exactly when its id was there
    before, or another record of the second batch carries it.
   */
  lemma RollbackThenCommitSkipsExactly(log: Log, s: Sink, failed: Cycle, next: Cycle, x: Coord)
    requires Sound(log, s) && Possible(log, s, failed) && RolledBack(log, failed)
    requires Possible(log, Next(log, s, failed), next) && Stored(log, next) && Acknowledged(log, next)
    requires x in failed.batch && WellFormed(MessageAt(log, x))
    ensures var s' := Next(log, Next(log, s, failed), next);
            && x.offset < s'.committed[x.partition]
            && (Present(log, s'.table, x) <==>
                  Present(log, s.table, x)
                  || exists y :: y in next.batch && WellFormed(MessageAt(log, y))
                                 && MessageAt(log, y).event.eventId == MessageAt(log, x).event.eventId)
  {
    StagedPresents(s.table, log, next.batch);
    var id := MessageAt(log, x).event.eventId.value;
    var after := Staged(s.table, log, next.batch);
    if id in after && id !in s.table {
      var y := after[id].coord;
      assert y in next.batch && WellFormed(MessageAt(log, y)) && MessageAt(log, y).event.eventId == Some(id);
    }
  }

  /** So a record can be lost: one failed database commit, and the next cycle's offsets pass it by. */
  lemma RollbackLosesARecord(first: Event, second: Event)
    requires Missing(first) == [] && Missing(second) == [] && first.eventId != second.eventId
    ensures var log := [[Payload(first), Payload(second)]];
            var failed := Cycle([Coord(0, 0)], [1], 1, Outcome(false, false), Outcome(false, false), false);
            var next := Cycle([Coord(0, 1)], [2], 1, Outcome(true, true), Outcome(true, true), false);
            && Legal(log, [failed, next])
            && var s := RunOf(log, [failed, next]);
               s.committed == [2] && first.eventId.value !in s.table && second.eventId.value in s.table
  {
    var log := [[Payload(first), Payload(second)]];
    var failed := Cycle([Coord(0, 0)], [1], 1, Outcome(false, false), Outcome(false, false), false);
    var next := Cycle([Coord(0, 1)], [2], 1, Outcome(true, true), Outcome(true, true), false);
    assert IsPoll(log, [0], [Coord(0, 0)], [1]) && IsPoll(log, [1], [Coord(0, 1)], [2]);
    assert Fresh(log) == Sink(map[], [0], [0], {});
    OneMore(log, [], failed);
    OneMore(log, [failed], next);
    assert [] + [failed] == [failed] && [failed] + [next] == [failed, next];
    assert RunOf(log, [failed]).position == [1] && RunOf(log, [failed]).table == map[];
    assert Staged(map[], log, [Coord(0, 1)][..0]) == map[];
  }

  lemma {:induction false} OneMore(log: Log, cycles: seq<Cycle>, c: Cycle)
    requires Legal(log, cycles)
    ensures Legal(log, cycles + [c]) <==> Possible(log, RunOf(log, cycles), c)
    ensures Possible(log, RunOf(log, cycles), c) ==>
              RunOf(log, cycles + [c]) == Next(log, RunOf(log, cycles), c)
  {
    assert (cycles + [c])[..|cycles|] == cycles;
  }

  /** Had the process died instead, the restarted one would poll those records again. */
  lemma DeathLosesNothing(log: Log, s: Sink, c: Cycle)
    requires Sound(log, s) && Possible(log, s, c) && c.dies
    ensures var s' := Next(log, s, c);
            s'.skipped == s.skipped && s'.position == s'.committed && AccountedBelow(log, s', s'.position)
  {
    CycleKeepsSound(log, s, c);
  }

  // ---------------------------------------------------------------- the process

  class EventSink {
    const log: Log
    var table: map<Id, Row>
    var committed: seq<nat>
    var position: seq<nat>
    ghost var skipped: set<Coord>

    ghost function View(): Sink
      reads this
    {
      Sink(table, committed, position, skipped)
    }

    constructor (log: Log)
      ensures this.log == log && View() == Fresh(log)
    {
      this.log := log;
      table, committed, position, skipped := map[], seq(|log|, i => 0), seq(|log|, i => 0), {};
    }

    /** The statements of one transaction, in the order of the batch; the first exception ends it. */
    method Stage(batch: seq<Coord>, failsAt: nat) returns (staged: map<Id, Row>, raised: bool)
      requires AllInLog(log, batch)
      ensures raised <==> failsAt < |batch| || exists i | 0 <= i < |batch| :: MessageAt(log, batch[i]).Poison?
      ensures !raised ==> staged == Staged(table, log, batch)
    {
      staged, raised := table, false;
      for i := 0 to |batch|
        invariant i <= failsAt && forall k | 0 <= k < i :: !MessageAt(log, batch[k]).Poison?
        invariant staged == Staged(table, log, batch[..i])
      {
        var m := MessageAt(log, batch[i]);
        if m.Poison? || i == failsAt {
          raised := true;
          return;
        }
        assert batch[..i + 1][..i] == batch[..i];
        if m.Payload? && Missing(m.event) == [] {
          var id := m.event.eventId.value;
          if id !in staged && !HasCoord(staged, batch[i]) {
            staged := staged[id := Row(batch[i], m.event)];
          }
        }
      }
      assert batch[..|batch|] == batch;
    }

    /** One pass of the loop, the polled batch and the fate of each commit being the environment's. */
    method RunCycle(c: Cycle)
      requires Possible(log, View(), c)
      modifies this
      ensures View() == Next(log, old(View()), c)
    {
      position := c.polled;
      if c.batch == [] {
        assert (set x | x in c.batch) == {};
      } else {
        var staged, raised := Stage(c.batch, c.failsAt);
        if !raised {
          if c.database.effective {
            table := staged;
          }
          if c.database.reported && c.offsets.effective {
            committed := position;
          }
        }
      }
      ghost var lost := if RolledBack(log, c) then set x | x in c.batch else {};
      skipped := skipped + lost;
      if c.dies {
        position := committed;
      }
    }

    /** The loop over a whole script, across deaths and restarts. */
    method Run(cycles: seq<Cycle>)
      requires View() == Fresh(log) && Legal(log, cycles)
      modifies this
      ensures View() == RunOf(log, cycles)
      ensures AccountedBelow(log, View(), committed)
    {
      var i := 0;
      assert cycles[..|cycles|] == cycles;
      while i < |cycles|
        invariant 0 <= i <= |cycles| && Legal(log, cycles[..i])
        invariant View() == RunOf(log, cycles[..i])
      {
        LegalPrefix(log, cycles, i + 1);
        assert cycles[..i + 1][..i] == cycles[..i];
        RunCycle(cycles[i]);
        i := i + 1;
      }
      NothingIsLostSilently(log, cycles);
    }
  }

  lemma {:induction false} LegalPrefix(log: Log, cycles: seq<Cycle>, n: nat)
    requires Legal(log, cycles) && n <= |cycles|
    ensures Legal(log, cycles[..n])
  {
    if n < |cycles| {
      LegalPrefix(log, cycles[..|cycles| - 1], n);
      assert cycles[..|cycles| - 1][..n] == cycles[..n];
    } else {
      assert cycles[..n] == cycles;
    }
  }
}
