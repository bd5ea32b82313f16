/**
  The lease protocol of the web-hosted event producer, as a transition system.

  Any number of processes share one lease row.  Each SQL statement is one atomic step; every
  await of a tick is a point where other processes, and time, may move.  A statement whose
  failure is seen after it took effect is the statement's step followed by a Fail step; one that
  never took effect is no step at all.  A process's owner id contains a random UUID, so the
  process's number stands for its owner id and is never used twice.

  The log is a history variable: it records what reached the database, and lets the theorems
  speak about whole runs.
 */
module StreamLease {
  import opened Options

  // The lease runs for thirty seconds from each claim and each recorded event.
  const LEASE_MS := 30_000

  type ProcessId = nat
  type TickId = nat

  datatype Lease = Lease(
    owner: ProcessId,
    expiresAt: int,
    lastStartedAt: int,
    lastEventAt: Option<int>,
    eventsWritten: nat)

  /** The claim statement: insert the row, or take it when it has expired or is already ours. */
  function ClaimStatement(row: Option<Lease>, owner: ProcessId, now: int): Option<Lease> {
    match row
    case None => Some(Lease(owner, now + LEASE_MS, now, None, 0))
    case Some(l) =>
      if l.owner == owner then
        Some(l.(expiresAt := now + LEASE_MS))
      else if l.expiresAt < now then
        Some(l.(owner := owner, expiresAt := now + LEASE_MS, lastStartedAt := now, eventsWritten := 0))
      else
        None
  }

  /** The closing update, guarded by the owner column; None when no row matches the guard. */
  function RecordStatement(row: Option<Lease>, owner: ProcessId, at: int, now: int): Option<Lease> {
    match row
    case None => None
    case Some(l) =>
      if l.owner == owner then
        Some(l.(lastEventAt := Some(at), eventsWritten := l.eventsWritten + 1, expiresAt := now + LEASE_MS))
      else
        None
  }

  /** The cadence test: a missing last event and one at epoch zero both read as "no last event". */
  predicate CadenceAllows(last: Option<int>, clock: int, intervalMs: int) {
    last.None? || last.value == 0 || clock - last.value >= intervalMs
  }

  // ---------------------------------------------------------------- processes and their steps

  // Where a process is in its tick; `seen` is the last_event_at that its claim returned.
  datatype Pc =
    | Idle
    | Preparing(seen: Option<int>)             // pruning and seeding, first tick only
    | Guarding(seen: Option<int>)              // storage guard, then the cadence test
    | Inserting(seen: Option<int>, at: int)    // the event exists, its insert does not
    | Recording(seen: Option<int>, at: int)    // inserted, the lease row not yet updated
    | Finishing                                // maintenance after the update
    | Dead

  datatype Process = Process(pc: Pc, tick: TickId, claimExpiry: int, historyReady: bool)

  datatype Reason = StatementFailed | ProcessCrashed | LeaseLost

  datatype Entry =
    | Claimed(owner: ProcessId, takeover: bool, now: int, expiresAt: int, grants: TickId)
    | Inserted(tick: TickId, at: int)
    | Recorded(owner: ProcessId, tick: TickId, at: int, now: int, expiresAt: int)
    | Abandoned(tick: TickId, reason: Reason)

  datatype State = State(
    lease: Option<Lease>,
    procs: map<ProcessId, Process>,
    dbClock: int,
    nextTick: TickId,
    log: seq<Entry>)

  datatype Action =
    | Start(p: ProcessId)
    | Claim(p: ProcessId, now: int)
    | Prepare(p: ProcessId)
    | Decide(p: ProcessId, storageAllows: bool, checkClock: int, stampClock: int)
    | Insert(p: ProcessId)
    | Record(p: ProcessId, now: int)
    | Finish(p: ProcessId)
    | Fail(p: ProcessId)
    | Crash(p: ProcessId)

  // What a run may rely on.  `steadyClock`: database time never goes backwards.  `faultless`: no tick
  // fails or crashes before its update has run.  `punctual`: no tick outlives its own claim before then.
  datatype Mode = Mode(steadyClock: bool, faultless: bool, punctual: bool)

  const Free := Mode(false, false, false)
  const Steady := Mode(true, false, false)
  const Timely := Mode(false, true, true)

  predicate Pending(pc: Pc) {
    pc.Preparing? || pc.Guarding? || pc.Inserting? || pc.Recording?
  }

  predicate MayReadDatabaseClock(m: Mode, s: State, now: int) {
    && (m.steadyClock ==> s.dbClock <= now)
    && (m.punctual ==> forall q | q in s.procs && Pending(s.procs[q].pc) :: now <= s.procs[q].claimExpiry)
  }

  predicate Enabled(m: Mode, s: State, a: Action) {
    if a.Start? then a.p !in s.procs
    else
      && a.p in s.procs
      && var pc := s.procs[a.p].pc;
      match a
      case Start(_) => false
      case Claim(_, now) => pc.Idle? && MayReadDatabaseClock(m, s, now)
      case Prepare(_) => pc.Preparing?
      // Both clock readings are of the process's own clock, with no await between them.
      case Decide(_, _, check, stamp) => pc.Guarding? && 0 < check <= stamp
      case Insert(_) => pc.Inserting?
      case Record(_, now) => pc.Recording? && MayReadDatabaseClock(m, s, now)
      case Finish(_) => pc.Finishing?
      case Fail(_) => !pc.Idle? && !pc.Dead? && (m.faultless ==> !Pending(pc))
      case Crash(_) => !pc.Dead? && (m.faultless ==> !Pending(pc))
  }

  function Goto(s: State, p: ProcessId, pc: Pc): State
    requires p in s.procs
  {
    s.(procs := s.procs[p := s.procs[p].(pc := pc)])
  }

  // A tick that stops between its insert and its update leaves an event the lease never counts.
  function Abandon(s: State, p: ProcessId, reason: Reason): State
    requires p in s.procs
  {
    if s.procs[p].pc.Recording? then s.(log := s.log + [Abandoned(s.procs[p].tick, reason)]) else s
  }

  function DoClaim(s: State, p: ProcessId, now: int): State
    requires p in s.procs
  {
    match ClaimStatement(s.lease, p, now)
    case None => s.(dbClock := now)
    case Some(l) =>
      var me := s.procs[p];
      var pc := if me.historyReady then Guarding(l.lastEventAt) else Preparing(l.lastEventAt);
      var takeover := s.lease.None? || s.lease.value.owner != p;
      State(Some(l), s.procs[p := me.(pc := pc, tick := s.nextTick, claimExpiry := l.expiresAt)],
            now, s.nextTick + 1, s.log + [Claimed(p, takeover, now, l.expiresAt, s.nextTick)])
  }

  function DoRecord(s: State, p: ProcessId, now: int): State
    requires p in s.procs && s.procs[p].pc.Recording?
  {
    var me := s.procs[p];
    match RecordStatement(s.lease, p, me.pc.at, now)
    case None => Goto(Abandon(s, p, LeaseLost), p, Finishing).(dbClock := now)
    case Some(l) =>
      Goto(s, p, Finishing).(
        lease := Some(l), dbClock := now,
        log := s.log + [Recorded(p, me.tick, me.pc.at, now, l.expiresAt)])
  }

  function Apply(intervalMs: int, s: State, a: Action): State
    requires Enabled(Free, s, a)
  {
    match a
    case Start(p) => s.(procs := s.procs[p := Process(Idle, 0, 0, false)])
    case Claim(p, now) => DoClaim(s, p, now)
    case Prepare(p) =>
      s.(procs := s.procs[p := s.procs[p].(pc := Guarding(s.procs[p].pc.seen), historyReady := true)])
    case Decide(p, storageAllows, check, stamp) =>
      var seen := s.procs[p].pc.seen;
      Goto(s, p, if storageAllows && CadenceAllows(seen, check, intervalMs) then Inserting(seen, stamp) else Idle)
    case Insert(p) =>
      var me := s.procs[p];
      Goto(s, p, Recording(me.pc.seen, me.pc.at)).(log := s.log + [Inserted(me.tick, me.pc.at)])
    case Record(p, now) => DoRecord(s, p, now)
    case Finish(p) => Goto(s, p, Idle)
    case Fail(p) => Goto(Abandon(s, p, StatementFailed), p, Idle)
    case Crash(p) => Goto(Abandon(s, p, ProcessCrashed), p, Dead)
  }

  const InitialState := State(None, map[], 0, 0, [])

  /** The run in which the given actions happened, and whether the mode allows every one of them. */
  predicate Legal(intervalMs: int, m: Mode, acts: seq<Action>)
    decreases |acts|, 0
  {
    acts == [] ||
    (var before := acts[..|acts| - 1];
     Legal(intervalMs, m, before) && Enabled(m, Run(intervalMs, m, before), acts[|acts| - 1]))
  }

  function Run(intervalMs: int, m: Mode, acts: seq<Action>): State
    requires Legal(intervalMs, m, acts)
    decreases |acts|, 1
  {
    if acts == [] then InitialState
    else Apply(intervalMs, Run(intervalMs, m, acts[..|acts| - 1]), acts[|acts| - 1])
  }

  // ---------------------------------------------------------------- what the log says

  predicate Extends(e: Entry) { e.Claimed? || e.Recorded? }

  /** Later recorded events are at least one interval after earlier ones. */
  ghost predicate RecordedSpaced(intervalMs: int, log: seq<Entry>) {
    forall i, j | 0 <= i < j < |log| && log[i].Recorded? && log[j].Recorded? ::
      log[i].at + intervalMs <= log[j].at
  }

  /** Later inserted events, recorded or not, are at least one interval after earlier ones. */
  ghost predicate InsertsSpaced(intervalMs: int, log: seq<Entry>) {
    forall i, j | 0 <= i < j < |log| && log[i].Inserted? && log[j].Inserted? ::
      log[i].at + intervalMs <= log[j].at
  }

  /** A process extends the lease only strictly after every expiry granted earlier to another one. */
  ghost predicate WindowsDisjoint(log: seq<Entry>) {
    forall i, j | 0 <= i < j < |log| && Extends(log[i]) && Extends(log[j]) && log[i].owner != log[j].owner ::
      log[i].expiresAt < log[j].now
  }

  /** Expiries never move backwards. */
  ghost predicate ExpiriesGrow(log: seq<Entry>) {
    forall i, j | 0 <= i < j < |log| && Extends(log[i]) && Extends(log[j]) :: log[i].expiresAt <= log[j].expiresAt
  }

  /** How many updates took effect since the lease last changed hands. */
  function RecordsSinceTakeover(log: seq<Entry>): nat {
    if log == [] then 0
    else
      var last := log[|log| - 1];
      if last.Claimed? && last.takeover then 0
      else RecordsSinceTakeover(log[..|log| - 1]) + if last.Recorded? then 1 else 0
  }

  function CountInserted(log: seq<Entry>): nat {
    if log == [] then 0 else CountInserted(log[..|log| - 1]) + if log[|log| - 1].Inserted? then 1 else 0
  }

  function CountRecorded(log: seq<Entry>): nat {
    if log == [] then 0 else CountRecorded(log[..|log| - 1]) + if log[|log| - 1].Recorded? then 1 else 0
  }

  function CountAbandoned(log: seq<Entry>): nat {
    if log == [] then 0 else CountAbandoned(log[..|log| - 1]) + if log[|log| - 1].Abandoned? then 1 else 0
  }

  function BetweenInsertAndUpdate(s: State): set<ProcessId> {
    set p | p in s.procs && s.procs[p].pc.Recording?
  }

  ghost predicate LastRecorded(log: seq<Entry>, last: Option<int>) {
    match last
    case None => forall i | 0 <= i < |log| :: !log[i].Recorded?
    case Some(x) =>
      && 0 < x
      && (exists i :: 0 <= i < |log| && log[i].Recorded? && log[i].at == x)
      && (forall i | 0 <= i < |log| && log[i].Recorded? :: log[i].at <= x)
  }

  // ---------------------------------------------------------------- the inductive invariants

  function LastEvent(s: State): Option<int> { if s.lease.None? then None else s.lease.value.lastEventAt }

  predicate Owns(s: State, p: ProcessId) { s.lease.Some? && s.lease.value.owner == p }

  // A pending process that still owns the lease saw exactly the current last_event_at, and the
  // event it carries is far enough from what it saw.
  ghost predicate CarriesCurrent(intervalMs: int, s: State, p: ProcessId)
    requires p in s.procs
  {
    var pc := s.procs[p].pc;
    && (Pending(pc) && Owns(s, p) ==> pc.seen == LastEvent(s))
    && (pc.Inserting? || pc.Recording? ==>
          0 < pc.at && (pc.seen.Some? && pc.seen.value != 0 ==> pc.seen.value + intervalMs <= pc.at))
  }

  ghost predicate CadenceInv(intervalMs: int, s: State) {
    && RecordedSpaced(intervalMs, s.log)
    && LastRecorded(s.log, LastEvent(s))
    && (forall p | p in s.procs :: CarriesCurrent(intervalMs, s, p))
    && (s.lease.Some? ==> s.lease.value.eventsWritten == RecordsSinceTakeover(s.log))
  }

  lemma {:induction false} AppendCounts(log: seq<Entry>, e: Entry)
    ensures CountInserted(log + [e]) == CountInserted(log) + if e.Inserted? then 1 else 0
    ensures CountRecorded(log + [e]) == CountRecorded(log) + if e.Recorded? then 1 else 0
    ensures CountAbandoned(log + [e]) == CountAbandoned(log) + if e.Abandoned? then 1 else 0
    ensures RecordsSinceTakeover(log + [e]) ==
            if e.Claimed? && e.takeover then 0
            else RecordsSinceTakeover(log) + if e.Recorded? then 1 else 0
  {
  }

  lemma AppendCadence(intervalMs: int, log: seq<Entry>, last: Option<int>, e: Entry)
    requires 0 < intervalMs && RecordedSpaced(intervalMs, log) && LastRecorded(log, last)
    requires e.Recorded? ==> 0 < e.at && (last.Some? ==> last.value + intervalMs <= e.at)
    ensures RecordedSpaced(intervalMs, log + [e])
    ensures LastRecorded(log + [e], if e.Recorded? then Some(e.at) else last)
  {
    var longer := log + [e];
    assert longer[|log|] == e;
    if !e.Recorded? && last.Some? {
      var i :| 0 <= i < |log| && log[i].Recorded? && log[i].at == last.value;
      assert longer[i].Recorded? && longer[i].at == last.value;
    }
  }

  /** A step writes at most one entry: an abandoned insert only by a failure, a crash or a lost lease, and a record
      only by the owner, whose event is then the last one. */
  lemma StepEntry(intervalMs: int, s: State, a: Action) returns (entry: Option<Entry>)
    requires Enabled(Free, s, a)
    ensures Apply(intervalMs, s, a).log == if entry.None? then s.log else s.log + [entry.value]
    ensures entry.Some? && entry.value.Abandoned? ==>
              a.p in s.procs && s.procs[a.p].pc.Recording? && (a.Fail? || a.Crash? || !Owns(s, a.p))
    ensures entry.Some? && entry.value.Recorded? ==>
              && a.p in s.procs && s.procs[a.p].pc.Recording? && Owns(s, a.p)
              && entry.value.at == s.procs[a.p].pc.at
    ensures LastEvent(Apply(intervalMs, s, a)) ==
            if entry.Some? && entry.value.Recorded? then Some(entry.value.at) else LastEvent(s)
  {
    var log := Apply(intervalMs, s, a).log;
    entry := if log == s.log then None else Some(log[|log| - 1]);
  }

  lemma CadenceStep(intervalMs: int, s: State, a: Action)
    requires 0 < intervalMs
    requires CadenceInv(intervalMs, s) && Enabled(Free, s, a)
    ensures CadenceInv(intervalMs, Apply(intervalMs, s, a))
  {
    CadenceProcesses(intervalMs, s, a);
    CadenceSpacing(intervalMs, s, a);
    CadenceCount(intervalMs, s, a);
  }

  lemma CadenceSpacing(intervalMs: int, s: State, a: Action)
    requires 0 < intervalMs
    requires CadenceInv(intervalMs, s) && Enabled(Free, s, a)
    ensures var s' := Apply(intervalMs, s, a);
            RecordedSpaced(intervalMs, s'.log) && LastRecorded(s'.log, LastEvent(s'))
  {
    var entry := StepEntry(intervalMs, s, a);
    if entry.Some? {
      if entry.value.Recorded? { assert CarriesCurrent(intervalMs, s, a.p); }
      AppendCadence(intervalMs, s.log, LastEvent(s), entry.value);
    }
  }

  lemma CadenceCount(intervalMs: int, s: State, a: Action)
    requires Enabled(Free, s, a)
    requires s.lease.Some? ==> s.lease.value.eventsWritten == RecordsSinceTakeover(s.log)
    ensures var s' := Apply(intervalMs, s, a);
            s'.lease.Some? ==> s'.lease.value.eventsWritten == RecordsSinceTakeover(s'.log)
  {
    var entry := StepEntry(intervalMs, s, a);
    if entry.Some? { AppendCounts(s.log, entry.value); }
  }

  lemma CadenceProcesses(intervalMs: int, s: State, a: Action)
    requires 0 < intervalMs
    requires CadenceInv(intervalMs, s) && Enabled(Free, s, a)
    ensures var s' := Apply(intervalMs, s, a); forall p | p in s'.procs :: CarriesCurrent(intervalMs, s', p)
  {
    var s' := Apply(intervalMs, s, a);
    forall p | p in s'.procs ensures CarriesCurrent(intervalMs, s', p) {
      if p in s.procs { assert CarriesCurrent(intervalMs, s, p); }
      if p != a.p { assert s'.procs[p] == s.procs[p]; }
    }
  }

  // ---------------------------------------------------------------- windows of ownership

  ghost predicate WindowInv(s: State) {
    && WindowsDisjoint(s.log)
    && ExpiriesGrow(s.log)
    && (s.lease.None? ==> forall i | 0 <= i < |s.log| :: !Extends(s.log[i]))
    && (s.lease.Some? ==> s.lease.value.expiresAt <= s.dbClock + LEASE_MS)
    && (s.lease.Some? ==> forall i | 0 <= i < |s.log| && Extends(s.log[i]) ::
          && s.log[i].expiresAt <= s.lease.value.expiresAt
          && (s.log[i].owner != s.lease.value.owner ==> s.log[i].expiresAt < s.dbClock))
  }

  lemma WindowStep(intervalMs: int, s: State, a: Action)
    requires WindowInv(s) && Enabled(Steady, s, a)
    ensures WindowInv(Apply(intervalMs, s, a))
  {
    var s' := Apply(intervalMs, s, a);
    if s'.log != s.log {
      var e := s'.log[|s'.log| - 1];
      assert s'.log == s.log + [e];
      if Extends(e) { GrantKeepsWindow(s, s', e); } else { SkipKeepsWindow(s, s', e); }
    }
  }

  // A lease that is granted or extended, by its owner or after expiry.
  lemma GrantKeepsWindow(s: State, s': State, e: Entry)
    requires WindowInv(s) && Extends(e) && s'.log == s.log + [e]
    requires s.dbClock <= e.now == s'.dbClock && e.expiresAt == e.now + LEASE_MS
    requires s.lease.Some? && s.lease.value.owner != e.owner ==> s.lease.value.expiresAt < e.now
    requires s'.lease.Some? && s'.lease.value.owner == e.owner && s'.lease.value.expiresAt == e.expiresAt
    ensures WindowInv(s')
  {
    AppendWindow(s, e);
    forall i | 0 <= i < |s'.log| && Extends(s'.log[i])
      ensures s'.log[i].expiresAt <= e.expiresAt && (s'.log[i].owner != e.owner ==> s'.log[i].expiresAt < e.now)
    {
      if i < |s.log| { assert s'.log[i] == s.log[i]; }
    }
  }

  // An entry that is no grant leaves the lease as it was, while time goes on.
  lemma SkipKeepsWindow(s: State, s': State, e: Entry)
    requires WindowInv(s) && !Extends(e) && s'.log == s.log + [e]
    requires s.dbClock <= s'.dbClock && s'.lease == s.lease
    ensures WindowInv(s')
  {
  }

  // A grant to the owner, or to anyone after expiry, keeps the windows apart and the expiries growing.
  lemma AppendWindow(s: State, e: Entry)
    requires WindowInv(s) && Extends(e) && s.dbClock <= e.now && e.expiresAt == e.now + LEASE_MS
    requires s.lease.Some? && s.lease.value.owner != e.owner ==> s.lease.value.expiresAt < e.now
    ensures WindowsDisjoint(s.log + [e]) && ExpiriesGrow(s.log + [e])
    ensures forall i | 0 <= i < |s.log| && Extends(s.log[i]) ::
              s.log[i].expiresAt <= e.expiresAt && (s.log[i].owner != e.owner ==> s.log[i].expiresAt < e.now)
  {
  }

  // ---------------------------------------------------------------- mutual exclusion in timely runs

  ghost predicate TimelyInv(intervalMs: int, s: State) {
    && CadenceInv(intervalMs, s)
    && InsertsSpaced(intervalMs, s.log)
    && (forall p | p in s.procs && Pending(s.procs[p].pc) ::
          Owns(s, p) && s.procs[p].claimExpiry <= s.lease.value.expiresAt)
    && (forall i | 0 <= i < |s.log| && s.log[i].Inserted? :: Overtaken(s, s.log[i].at))
  }

  // The event at this time is not newer than the last recorded one, or than the one being recorded.
  ghost predicate Overtaken(s: State, at: int) {
    || (LastEvent(s).Some? && at <= LastEvent(s).value)
    || (exists p :: p in s.procs && s.procs[p].pc.Recording? && at <= s.procs[p].pc.at)
  }

  lemma TimelyStep(intervalMs: int, s: State, a: Action)
    requires 0 < intervalMs
    requires TimelyInv(intervalMs, s) && Enabled(Timely, s, a)
    ensures TimelyInv(intervalMs, Apply(intervalMs, s, a))
  {
    CadenceStep(intervalMs, s, a);
    TimelyOwnership(intervalMs, s, a);
    InsertsOvertaken(intervalMs, s, a);
    TimelySpacing(intervalMs, s, a);
  }

  lemma InsertsOvertaken(intervalMs: int, s: State, a: Action)
    requires 0 < intervalMs
    requires TimelyInv(intervalMs, s) && Enabled(Timely, s, a)
    ensures var s' := Apply(intervalMs, s, a);
            forall i | 0 <= i < |s'.log| && s'.log[i].Inserted? :: Overtaken(s', s'.log[i].at)
  {
    var s' := Apply(intervalMs, s, a);
    forall i | 0 <= i < |s'.log| && s'.log[i].Inserted? ensures Overtaken(s', s'.log[i].at) {
      if i < |s.log| {
        OvertakenStays(intervalMs, s, a, s.log[i].at);
      } else {
        assert s'.procs[a.p].pc.Recording? && s'.log[i].at <= s'.procs[a.p].pc.at;
      }
    }
  }

  lemma TimelySpacing(intervalMs: int, s: State, a: Action)
    requires 0 < intervalMs
    requires TimelyInv(intervalMs, s) && Enabled(Timely, s, a)
    ensures InsertsSpaced(intervalMs, Apply(intervalMs, s, a).log)
  {
    var s' := Apply(intervalMs, s, a);
    if s'.log != s.log {
      var e := s'.log[|s'.log| - 1];
      assert s'.log == s.log + [e];
      if e.Inserted? {
        assert CarriesCurrent(intervalMs, s, a.p);
        forall i | 0 <= i < |s.log| && s.log[i].Inserted? ensures s.log[i].at + intervalMs <= e.at {
          assert Overtaken(s, s.log[i].at);
        }
      }
    }
  }

  lemma TimelyOwnership(intervalMs: int, s: State, a: Action)
    requires 0 < intervalMs
    requires TimelyInv(intervalMs, s) && Enabled(Timely, s, a)
    ensures var s' := Apply(intervalMs, s, a);
            forall p | p in s'.procs && Pending(s'.procs[p].pc) ::
              Owns(s', p) && s'.procs[p].claimExpiry <= s'.lease.value.expiresAt
  {
  }

  lemma OvertakenStays(intervalMs: int, s: State, a: Action, at: int)
    requires 0 < intervalMs
    requires TimelyInv(intervalMs, s) && Enabled(Timely, s, a) && Overtaken(s, at)
    ensures Overtaken(Apply(intervalMs, s, a), at)
  {
    var s' := Apply(intervalMs, s, a);
    if a.p in s.procs { assert CarriesCurrent(intervalMs, s, a.p); }
    if !(LastEvent(s).Some? && at <= LastEvent(s).value) {
      var p :| p in s.procs && s.procs[p].pc.Recording? && at <= s.procs[p].pc.at;
      if p != a.p { assert s'.procs[p] == s.procs[p]; }
    }
  }

  // ---------------------------------------------------------------- inserts after earlier records

  ghost predicate GrantedAt(log: seq<Entry>, tick: TickId, c: int) {
    0 <= c < |log| && log[c].Claimed? && log[c].grants == tick
  }

  /** An event is at least one interval after every event that had been recorded when its tick claimed the lease. */
  ghost predicate InsertsFollowRecords(intervalMs: int, log: seq<Entry>) {
    forall i, c, j | 0 <= i < c < j < |log| && log[i].Recorded? && log[j].Inserted? && GrantedAt(log, log[j].tick, c) ::
      log[i].at + intervalMs <= log[j].at
  }

  ghost predicate EveryInsertGranted(log: seq<Entry>) {
    forall j | 0 <= j < |log| && log[j].Inserted? :: exists c :: c < j && GrantedAt(log, log[j].tick, c)
  }

  // A pending tick was granted once, and saw a last event no older than any recorded before its grant.
  ghost predicate SawEarlier(s: State, p: ProcessId)
    requires p in s.procs && Pending(s.procs[p].pc)
  {
    var me := s.procs[p];
    && me.tick < s.nextTick
    && (exists c :: GrantedAt(s.log, me.tick, c))
    && (forall i, c | 0 <= i < c && GrantedAt(s.log, me.tick, c) && s.log[i].Recorded? ::
          me.pc.seen.Some? && 0 < me.pc.seen.value && s.log[i].at <= me.pc.seen.value)
  }

  ghost predicate FollowInv(intervalMs: int, s: State) {
    && CadenceInv(intervalMs, s)
    && InsertsFollowRecords(intervalMs, s.log) && EveryInsertGranted(s.log)
    && (forall c | 0 <= c < |s.log| && s.log[c].Claimed? :: s.log[c].grants < s.nextTick)
    && (forall j | 0 <= j < |s.log| && s.log[j].Inserted? :: s.log[j].tick < s.nextTick)
    && (forall p | p in s.procs && Pending(s.procs[p].pc) :: SawEarlier(s, p))
  }

  lemma AppendFollow(intervalMs: int, log: seq<Entry>, e: Entry)
    requires InsertsFollowRecords(intervalMs, log) && EveryInsertGranted(log)
    requires e.Inserted? ==> exists c :: GrantedAt(log, e.tick, c)
    requires e.Inserted? ==> forall i, c | 0 <= i < c && GrantedAt(log, e.tick, c) && log[i].Recorded? ::
                               log[i].at + intervalMs <= e.at
    ensures InsertsFollowRecords(intervalMs, log + [e]) && EveryInsertGranted(log + [e])
  {
    var longer := log + [e];
    forall j | 0 <= j < |longer| && longer[j].Inserted?
      ensures exists c :: c < j && GrantedAt(longer, longer[j].tick, c)
    {
      var c :| GrantedAt(log, longer[j].tick, c) && c < j;
      assert GrantedAt(longer, longer[j].tick, c);
    }
    forall i, c, j | 0 <= i < c < j < |longer| && longer[i].Recorded? && longer[j].Inserted?
                     && GrantedAt(longer, longer[j].tick, c)
      ensures longer[i].at + intervalMs <= longer[j].at
    {
      assert GrantedAt(log, longer[j].tick, c);
    }
  }

  // The one that has just claimed saw the last recorded event.
  lemma SawAtClaim(intervalMs: int, s: State, a: Action)
    requires FollowInv(intervalMs, s) && Enabled(Free, s, a) && a.Claim?
    requires Pending(Apply(intervalMs, s, a).procs[a.p].pc)
    ensures SawEarlier(Apply(intervalMs, s, a), a.p)
  {
    var s' := Apply(intervalMs, s, a);
    var me := s'.procs[a.p];
    assert GrantedAt(s'.log, me.tick, |s.log|);
    forall i, c | 0 <= i < c && GrantedAt(s'.log, me.tick, c) && s'.log[i].Recorded?
      ensures me.pc.seen.Some? && 0 < me.pc.seen.value && s'.log[i].at <= me.pc.seen.value
    {
      assert c == |s.log| && s'.log[i] == s.log[i];
    }
  }

  // Whoever was pending, and has the same tick and the same last event seen, still saw what its claim saw.
  lemma SawStill(s: State, s': State, p: ProcessId)
    requires p in s.procs && Pending(s.procs[p].pc) && SawEarlier(s, p)
    requires p in s'.procs && Pending(s'.procs[p].pc)
    requires s'.procs[p].tick == s.procs[p].tick && s'.procs[p].pc.seen == s.procs[p].pc.seen
    requires s.nextTick <= s'.nextTick && s.log <= s'.log
    requires forall c | |s.log| <= c < |s'.log| && s'.log[c].Claimed? :: s'.log[c].grants != s.procs[p].tick
    ensures SawEarlier(s', p)
  {
    var me := s'.procs[p];
    var c :| GrantedAt(s.log, me.tick, c);
    assert GrantedAt(s'.log, me.tick, c);
    forall i, c | 0 <= i < c && GrantedAt(s'.log, me.tick, c) && s'.log[i].Recorded?
      ensures me.pc.seen.Some? && 0 < me.pc.seen.value && s'.log[i].at <= me.pc.seen.value
    {
      assert GrantedAt(s.log, me.tick, c) && s'.log[i] == s.log[i];
    }
  }

  lemma SawStays(intervalMs: int, s: State, a: Action, p: ProcessId)
    requires FollowInv(intervalMs, s) && Enabled(Free, s, a)
    requires p in Apply(intervalMs, s, a).procs && Pending(Apply(intervalMs, s, a).procs[p].pc)
    ensures SawEarlier(Apply(intervalMs, s, a), p)
  {
    if a.Claim? && p == a.p {
      SawAtClaim(intervalMs, s, a);
    } else {
      assert SawEarlier(s, p);
      SawStill(s, Apply(intervalMs, s, a), p);
    }
  }

  lemma FollowStep(intervalMs: int, s: State, a: Action)
    requires 0 < intervalMs
    requires FollowInv(intervalMs, s) && Enabled(Free, s, a)
    ensures FollowInv(intervalMs, Apply(intervalMs, s, a))
  {
    var s' := Apply(intervalMs, s, a);
    CadenceStep(intervalMs, s, a);
    forall p | p in s'.procs && Pending(s'.procs[p].pc) ensures SawEarlier(s', p) {
      SawStays(intervalMs, s, a, p);
    }
    if s'.log != s.log {
      var e := s'.log[|s'.log| - 1];
      assert s'.log == s.log + [e];
      if e.Inserted? { assert SawEarlier(s, a.p) && CarriesCurrent(intervalMs, s, a.p); }
      AppendFollow(intervalMs, s.log, e);
    }
  }

  // ---------------------------------------------------------------- accounting of inserts

  predicate Settled(e: Entry) { e.Recorded? || e.Abandoned? }

  ghost predicate HasInsert(log: seq<Entry>, tick: TickId) {
    exists i :: 0 <= i < |log| && log[i].Inserted? && log[i].tick == tick
  }

  /** No tick inserts twice, no tick is settled twice, and only ticks that inserted are settled. */
  ghost predicate TicksDistinct(log: seq<Entry>) {
    && (forall i, j | 0 <= i < j < |log| && log[i].Inserted? && log[j].Inserted? :: log[i].tick != log[j].tick)
    && (forall i, j | 0 <= i < j < |log| && Settled(log[i]) && Settled(log[j]) :: log[i].tick != log[j].tick)
    && (forall i | 0 <= i < |log| && Settled(log[i]) :: HasInsert(log, log[i].tick))
  }

  ghost predicate TickInv(s: State) {
    && TicksDistinct(s.log)
    && (forall i | 0 <= i < |s.log| && !s.log[i].Claimed? :: s.log[i].tick < s.nextTick)
    && (forall p | p in s.procs && Pending(s.procs[p].pc) :: OwnTick(s, p))
    && (forall p, q | p in s.procs && q in s.procs && p != q && Pending(s.procs[p].pc) && Pending(s.procs[q].pc) ::
          s.procs[p].tick != s.procs[q].tick)
  }

  // A pending tick has inserted exactly when it is recording, and is not settled.
  ghost predicate OwnTick(s: State, p: ProcessId)
    requires p in s.procs
  {
    var me := s.procs[p];
    && me.tick < s.nextTick
    && (HasInsert(s.log, me.tick) <==> me.pc.Recording?)
    && (forall i | 0 <= i < |s.log| && Settled(s.log[i]) :: s.log[i].tick != me.tick)
  }

  lemma TickStep(intervalMs: int, s: State, a: Action)
    requires TickInv(s) && Enabled(Free, s, a)
    ensures TickInv(Apply(intervalMs, s, a))
  {
    var s' := Apply(intervalMs, s, a);
    TickLog(intervalMs, s, a);
    forall p | p in s'.procs && Pending(s'.procs[p].pc) ensures OwnTick(s', p) {
      OwnTickStays(intervalMs, s, a, p);
    }
    forall p, q | p in s'.procs && q in s'.procs && p != q && Pending(s'.procs[p].pc) && Pending(s'.procs[q].pc)
      ensures s'.procs[p].tick != s'.procs[q].tick
    {
      TickKept(intervalMs, s, a, p);
      TickKept(intervalMs, s, a, q);
    }
  }

  lemma OwnTickStays(intervalMs: int, s: State, a: Action, p: ProcessId)
    requires TickInv(s) && Enabled(Free, s, a)
    requires p in Apply(intervalMs, s, a).procs && Pending(Apply(intervalMs, s, a).procs[p].pc)
    ensures OwnTick(Apply(intervalMs, s, a), p)
  {
    TickLog(intervalMs, s, a);
    if p == a.p {
      if p in s.procs && Pending(s.procs[p].pc) { assert OwnTick(s, p); }
    } else {
      assert Apply(intervalMs, s, a).procs[p] == s.procs[p] && OwnTick(s, p);
      OtherTickStays(s, Apply(intervalMs, s, a), p);
    }
  }

  // An entry of another tick does not concern this one.
  lemma OtherTickStays(s: State, s': State, p: ProcessId)
    requires p in s.procs && OwnTick(s, p) && p in s'.procs && s'.procs[p] == s.procs[p]
    requires s.nextTick <= s'.nextTick && s.log <= s'.log
    requires forall i | |s.log| <= i < |s'.log| && !s'.log[i].Claimed? :: s'.log[i].tick != s.procs[p].tick
    ensures OwnTick(s', p)
  {
    if HasInsert(s.log, s.procs[p].tick) {
      var i :| 0 <= i < |s.log| && s.log[i].Inserted? && s.log[i].tick == s.procs[p].tick;
      assert s'.log[i] == s.log[i];
    }
  }

  // A pending process keeps its tick, except the one that has just been granted a new one.
  lemma TickKept(intervalMs: int, s: State, a: Action, p: ProcessId)
    requires TickInv(s) && Enabled(Free, s, a)
    requires p in Apply(intervalMs, s, a).procs && Pending(Apply(intervalMs, s, a).procs[p].pc)
    ensures var t := Apply(intervalMs, s, a).procs[p].tick;
            || (p in s.procs && Pending(s.procs[p].pc) && t == s.procs[p].tick < s.nextTick)
            || (p == a.p && a.Claim? && t == s.nextTick)
  {
  }

  // The log after a step, as seen by every tick that was pending before it.
  lemma TickLog(intervalMs: int, s: State, a: Action)
    requires TickInv(s) && Enabled(Free, s, a)
    ensures var s' := Apply(intervalMs, s, a);
            && s.nextTick <= s'.nextTick
            && TicksDistinct(s'.log)
            && (forall i | 0 <= i < |s'.log| && !s'.log[i].Claimed? :: s'.log[i].tick < s'.nextTick)
            && (s'.log == s.log ||
                (|s'.log| == |s.log| + 1 && s'.log[..|s.log|] == s.log &&
                 (s'.log[|s.log|].Claimed? || (a.p in s.procs && s'.log[|s.log|].tick == s.procs[a.p].tick))))
            && (forall t :: HasInsert(s'.log, t) <==>
                 HasInsert(s.log, t) || (a.Insert? && t == s.procs[a.p].tick))
  {
    var s' := Apply(intervalMs, s, a);
    if a.p in s.procs && Pending(s.procs[a.p].pc) { assert OwnTick(s, a.p); }
    if s'.log != s.log {
      var e := s'.log[|s'.log| - 1];
      assert s'.log == s.log + [e];
      AppendTicks(s.log, e);
    }
  }

  lemma AppendTicks(log: seq<Entry>, e: Entry)
    requires TicksDistinct(log)
    requires e.Inserted? ==> !HasInsert(log, e.tick)
    requires Settled(e) ==> HasInsert(log, e.tick)
    requires Settled(e) ==> forall i | 0 <= i < |log| && Settled(log[i]) :: log[i].tick != e.tick
    ensures TicksDistinct(log + [e])
    ensures forall t :: HasInsert(log + [e], t) <==> HasInsert(log, t) || (e.Inserted? && e.tick == t)
  {
    var longer := log + [e];
    forall t ensures HasInsert(longer, t) <==> HasInsert(log, t) || (e.Inserted? && e.tick == t) {
      if HasInsert(log, t) {
        var i :| 0 <= i < |log| && log[i].Inserted? && log[i].tick == t;
        assert longer[i] == log[i];
      }
      if e.Inserted? && e.tick == t { assert longer[|log|] == e; }
    }
  }

  ghost predicate AccountInv(s: State) {
    CountInserted(s.log) == CountRecorded(s.log) + CountAbandoned(s.log) + |BetweenInsertAndUpdate(s)|
  }

  lemma CountsDifferOnlyAt<T>(a: set<T>, b: set<T>, x: T)
    requires a - {x} == b - {x}
    ensures |a| + (if x in b then 1 else 0) == |b| + (if x in a then 1 else 0)
  {
    assert a == if x in a then (a - {x}) + {x} else a - {x};
    assert b == if x in b then (b - {x}) + {x} else b - {x};
  }

  // When only process p moves, the processes between insert and update change by p alone.
  lemma OnlyOneMoves(s: State, s': State, p: ProcessId)
    requires s.procs - {p} == s'.procs - {p}
    ensures |BetweenInsertAndUpdate(s')| + (if p in s.procs && s.procs[p].pc.Recording? then 1 else 0)
         == |BetweenInsertAndUpdate(s)| + (if p in s'.procs && s'.procs[p].pc.Recording? then 1 else 0)
  {
    var busy, busy' := BetweenInsertAndUpdate(s), BetweenInsertAndUpdate(s');
    forall q ensures q in busy - {p} <==> q in busy' - {p} {
      assert q in s.procs - {p} <==> q in s'.procs - {p};
      if q in s.procs - {p} { assert (s.procs - {p})[q] == (s'.procs - {p})[q]; }
    }
    CountsDifferOnlyAt(busy, busy', p);
  }

  lemma AccountStep(intervalMs: int, s: State, a: Action)
    requires AccountInv(s) && Enabled(Free, s, a)
    ensures AccountInv(Apply(intervalMs, s, a))
  {
    var s' := Apply(intervalMs, s, a);
    assert s'.procs - {a.p} == s.procs - {a.p};
    OnlyOneMoves(s, s', a.p);
    LogCounts(intervalMs, s, a);
  }

  // An insert adds to the first count; leaving the stretch between insert and update adds to one of the others.
  lemma LogCounts(intervalMs: int, s: State, a: Action)
    requires Enabled(Free, s, a)
    ensures var s' := Apply(intervalMs, s, a);
            var before := a.p in s.procs && s.procs[a.p].pc.Recording?;
            var after := a.p in s'.procs && s'.procs[a.p].pc.Recording?;
            CountInserted(s'.log) - CountInserted(s.log) + (if before then 1 else 0)
            == CountRecorded(s'.log) - CountRecorded(s.log) + CountAbandoned(s'.log) - CountAbandoned(s.log)
               + (if after then 1 else 0)
  {
    var s' := Apply(intervalMs, s, a);
    if s'.log != s.log {
      var e := s'.log[|s'.log| - 1];
      assert s'.log == s.log + [e];
      AppendCounts(s.log, e);
    }
  }

  // ---------------------------------------------------------------- theorems over whole runs

  lemma {:induction false} EveryRunKeepsCadence(intervalMs: int, m: Mode, acts: seq<Action>)
    requires 0 < intervalMs && Legal(intervalMs, m, acts)
    ensures CadenceInv(intervalMs, Run(intervalMs, m, acts))
  {
    if acts != [] {
      EveryRunKeepsCadence(intervalMs, m, acts[..|acts| - 1]);
      CadenceStep(intervalMs, Run(intervalMs, m, acts[..|acts| - 1]), acts[|acts| - 1]);
    }
  }

  /**
    Whatever the processes, stalls, crashes, takeovers and clocks: the updates that take effect
    are at least one interval apart, events_written counts those since the last takeover, and a
    process that is still pending and still the owner carries the current last_event_at.
   */
  lemma {:induction false} EffectiveUpdatesKeepTheCadence(intervalMs: int, m: Mode, acts: seq<Action>)
    requires 0 < intervalMs && Legal(intervalMs, m, acts)
    ensures var s := Run(intervalMs, m, acts);
            && RecordedSpaced(intervalMs, s.log)
            && LastRecorded(s.log, LastEvent(s))
            && (s.lease.Some? ==> s.lease.value.eventsWritten == RecordsSinceTakeover(s.log))
            && forall p | p in s.procs && Pending(s.procs[p].pc) && Owns(s, p) ::
                 s.procs[p].pc.seen == LastEvent(s)
  {
    EveryRunKeepsCadence(intervalMs, m, acts);
    var s := Run(intervalMs, m, acts);
    forall p | p in s.procs && Pending(s.procs[p].pc) && Owns(s, p) ensures s.procs[p].pc.seen == LastEvent(s) {
      assert CarriesCurrent(intervalMs, s, p);
    }
  }

  /** With database time that never goes back, expiries grow and different owners' windows are disjoint. */
  lemma {:induction false} OwnershipWindowsAreDisjoint(intervalMs: int, m: Mode, acts: seq<Action>)
    requires m.steadyClock && Legal(intervalMs, m, acts)
    ensures var s := Run(intervalMs, m, acts); WindowInv(s) && WindowsDisjoint(s.log) && ExpiriesGrow(s.log)
  {
    if acts != [] {
      OwnershipWindowsAreDisjoint(intervalMs, m, acts[..|acts| - 1]);
      WindowStep(intervalMs, Run(intervalMs, m, acts[..|acts| - 1]), acts[|acts| - 1]);
    }
  }

  /**
    With no assumption at all, an inserted event is at least one interval after every event whose update
    had taken effect when its own tick claimed the lease: only events not yet recorded then can be too close.
   */
  lemma {:induction false} InsertsFollowEarlierRecords(intervalMs: int, m: Mode, acts: seq<Action>)
    requires 0 < intervalMs && Legal(intervalMs, m, acts)
    ensures var s := Run(intervalMs, m, acts);
            FollowInv(intervalMs, s) && InsertsFollowRecords(intervalMs, s.log) && EveryInsertGranted(s.log)
  {
    if acts != [] {
      InsertsFollowEarlierRecords(intervalMs, m, acts[..|acts| - 1]);
      FollowStep(intervalMs, Run(intervalMs, m, acts[..|acts| - 1]), acts[|acts| - 1]);
    }
  }

  /** When every tick reaches its update within its own claim, all inserted events keep the cadence. */
  lemma {:induction false} TimelyInsertsKeepTheCadence(intervalMs: int, m: Mode, acts: seq<Action>)
    requires 0 < intervalMs && m.faultless && m.punctual && Legal(intervalMs, m, acts)
    ensures var s := Run(intervalMs, m, acts);
            TimelyInv(intervalMs, s) && InsertsSpaced(intervalMs, s.log) && CountAbandoned(s.log) == 0
  {
    if acts != [] {
      var before := acts[..|acts| - 1];
      TimelyInsertsKeepTheCadence(intervalMs, m, before);
      TimelyStep(intervalMs, Run(intervalMs, m, before), acts[|acts| - 1]);
      TimelyAbandonsNothing(intervalMs, Run(intervalMs, m, before), acts[|acts| - 1]);
    }
  }

  lemma TimelyAbandonsNothing(intervalMs: int, s: State, a: Action)
    requires forall p | p in s.procs && Pending(s.procs[p].pc) :: Owns(s, p)
    requires Enabled(Timely, s, a) && CountAbandoned(s.log) == 0
    ensures CountAbandoned(Apply(intervalMs, s, a).log) == 0
  {
    var entry := StepEntry(intervalMs, s, a);
    if entry.Some? { AppendCounts(s.log, entry.value); }
  }

  /**
    Every inserted event is recorded, is being recorded, or was abandoned by a tick that failed,
    crashed or lost the lease in between; no two events are charged to the same tick.
   */
  lemma {:induction false} InsertsAreAccountedFor(intervalMs: int, m: Mode, acts: seq<Action>)
    requires Legal(intervalMs, m, acts)
    ensures var s := Run(intervalMs, m, acts);
            && TickInv(s) && TicksDistinct(s.log)
            && CountInserted(s.log) ==
               CountRecorded(s.log) + CountAbandoned(s.log) + |BetweenInsertAndUpdate(s)|
  {
    if acts != [] {
      var before := acts[..|acts| - 1];
      InsertsAreAccountedFor(intervalMs, m, before);
      TickStep(intervalMs, Run(intervalMs, m, before), acts[|acts| - 1]);
      AccountStep(intervalMs, Run(intervalMs, m, before), acts[|acts| - 1]);
    } else {
      assert BetweenInsertAndUpdate(InitialState) == {};
    }
  }

  // ---------------------------------------------------------------- the insert is not fenced

  /** A run that a stricter mode allows is the same run in a laxer one. */
  lemma {:induction false} LaxerModeAllows(intervalMs: int, strict: Mode, lax: Mode, acts: seq<Action>)
    requires Legal(intervalMs, strict, acts)
    requires (lax.steadyClock ==> strict.steadyClock) && (lax.faultless ==> strict.faultless)
    requires lax.punctual ==> strict.punctual
    ensures Legal(intervalMs, lax, acts) && Run(intervalMs, lax, acts) == Run(intervalMs, strict, acts)
  {
    if acts != [] {
      LaxerModeAllows(intervalMs, strict, lax, acts[..|acts| - 1]);
    }
  }

  lemma OneMore(
      intervalMs: int, m: Mode, acts: seq<Action>, s: State, a: Action)
    returns (longer: seq<Action>, s': State)
    requires Legal(intervalMs, m, acts) && s == Run(intervalMs, m, acts) && Enabled(m, s, a)
    ensures longer == acts + [a] && s' == Apply(intervalMs, s, a)
    ensures Legal(intervalMs, m, longer) && Run(intervalMs, m, longer) == s'
  {
    longer := acts + [a];
    s' := Apply(intervalMs, s, a);
    assert longer[..|acts|] == acts;
  }

  // No tick fails, and time is steady: the only thing left to go wrong is a tick that outlives its claim.
  const NoFault := Mode(true, true, false)

  // Process 0 stalls between its cadence test and its insert; process 1 takes the lease over after
  // expiry and records an event; then process 0's insert goes through.
  const StalledTick: seq<Action> := [
    Start(0), Start(1), Claim(0, 1), Prepare(0), Decide(0, true, 1_000_000, 1_000_000),
    Claim(1, 30_002), Prepare(1), Decide(1, true, 1_000_001, 1_000_001), Insert(1), Insert(0)]

  const HalfStalled := State(
    Some(Lease(0, 30_001, 1, None, 0)),
    map[0 := Process(Guarding(None), 0, 30_001, true), 1 := Process(Idle, 0, 0, false)],
    1, 1, [Claimed(0, true, 1, 30_001, 0)])

  lemma {:induction false} HalfStalledRun(intervalMs: int)
    ensures Legal(intervalMs, NoFault, StalledTick[..4]) && Run(intervalMs, NoFault, StalledTick[..4]) == HalfStalled
  {
    var acts, s := [], InitialState;
    acts, s := OneMore(intervalMs, NoFault, acts, s, Start(0));
    acts, s := OneMore(intervalMs, NoFault, acts, s, Start(1));
    acts, s := OneMore(intervalMs, NoFault, acts, s, Claim(0, 1));
    acts, s := OneMore(intervalMs, NoFault, acts, s, Prepare(0));
    assert acts == StalledTick[..4];
    assert s.procs == HalfStalled.procs;
  }

  const Stalled := State(
    Some(Lease(1, 60_002, 30_002, None, 0)),
    map[0 := Process(Inserting(None, 1_000_000), 0, 30_001, true),
        1 := Process(Guarding(None), 1, 60_002, true)],
    30_002, 2, [Claimed(0, true, 1, 30_001, 0), Claimed(1, true, 30_002, 60_002, 1)])

  lemma {:induction false} StalledRun(intervalMs: int)
    ensures Legal(intervalMs, NoFault, StalledTick[..7]) && Run(intervalMs, NoFault, StalledTick[..7]) == Stalled
  {
    HalfStalledRun(intervalMs);
    var acts, s := StalledTick[..4], HalfStalled;
    acts, s := OneMore(intervalMs, NoFault, acts, s, Decide(0, true, 1_000_000, 1_000_000));
    acts, s := OneMore(intervalMs, NoFault, acts, s, Claim(1, 30_002));
    acts, s := OneMore(intervalMs, NoFault, acts, s, Prepare(1));
    assert acts == StalledTick[..7];
    assert s.procs == Stalled.procs;
  }

  /** A tick that outlives its claim can break the spacing of inserts, even if nothing ever fails. */
  lemma {:induction false} StalledInsertBreaksSpacing(intervalMs: int)
    requires 0 < intervalMs
    ensures Legal(intervalMs, NoFault, StalledTick)
    ensures !InsertsSpaced(intervalMs, Run(intervalMs, NoFault, StalledTick).log)
  {
    StalledRun(intervalMs);
    var acts, s := StalledTick[..7], Stalled;
    acts, s := OneMore(intervalMs, NoFault, acts, s, Decide(1, true, 1_000_001, 1_000_001));
    acts, s := OneMore(intervalMs, NoFault, acts, s, Insert(1));
    acts, s := OneMore(intervalMs, NoFault, acts, s, Insert(0));
    assert acts == StalledTick;
    assert s.log[2] == Inserted(1, 1_000_001) && s.log[3] == Inserted(0, 1_000_000);
  }

  // No tick outlives its claim, and time is steady: the only thing left to go wrong is a failure.
  const NoDelay := Mode(true, false, true)

  // The only process inserts an event, fails before the update, and at its next tick still sees no event.
  const FailedTick: seq<Action> := [
    Start(0), Claim(0, 1), Prepare(0), Decide(0, true, 1_000_000, 1_000_000), Insert(0), Fail(0),
    Claim(0, 2), Decide(0, true, 1_000_000, 1_000_000), Insert(0)]

  const BeforeFailure := State(
    Some(Lease(0, 30_001, 1, None, 0)),
    map[0 := Process(Inserting(None, 1_000_000), 0, 30_001, true)],
    1, 1, [Claimed(0, true, 1, 30_001, 0)])

  lemma {:induction false} FailedRun(intervalMs: int)
    ensures Legal(intervalMs, NoDelay, FailedTick[..4]) && Run(intervalMs, NoDelay, FailedTick[..4]) == BeforeFailure
  {
    var acts, s := [], InitialState;
    acts, s := OneMore(intervalMs, NoDelay, acts, s, Start(0));
    acts, s := OneMore(intervalMs, NoDelay, acts, s, Claim(0, 1));
    acts, s := OneMore(intervalMs, NoDelay, acts, s, Prepare(0));
    acts, s := OneMore(intervalMs, NoDelay, acts, s, Decide(0, true, 1_000_000, 1_000_000));
    assert acts == FailedTick[..4];
    assert s.procs == BeforeFailure.procs;
  }

  /** A failure between insert and update can break the spacing of inserts, even for one process that is never late. */
  lemma {:induction false} FailedUpdateBreaksSpacing(intervalMs: int)
    requires 0 < intervalMs
    ensures Legal(intervalMs, NoDelay, FailedTick)
    ensures !InsertsSpaced(intervalMs, Run(intervalMs, NoDelay, FailedTick).log)
  {
    FailedRun(intervalMs);
    var acts, s := FailedTick[..4], BeforeFailure;
    acts, s := OneMore(intervalMs, NoDelay, acts, s, Insert(0));
    acts, s := OneMore(intervalMs, NoDelay, acts, s, Fail(0));
    acts, s := OneMore(intervalMs, NoDelay, acts, s, Claim(0, 2));
    acts, s := OneMore(intervalMs, NoDelay, acts, s, Decide(0, true, 1_000_000, 1_000_000));
    acts, s := OneMore(intervalMs, NoDelay, acts, s, Insert(0));
    assert acts == FailedTick;
    assert s.log[1] == Inserted(0, 1_000_000) && s.log[|s.log| - 1] == Inserted(1, 1_000_000);
  }

  ghost predicate AlwaysSpaced(intervalMs: int, m: Mode) {
    forall acts | Legal(intervalMs, m, acts) :: InsertsSpaced(intervalMs, Run(intervalMs, m, acts).log)
  }

  /**
    All inserts keep the cadence in every run exactly when no tick fails, and none outlives its claim, before its
    update.
   */
  lemma InsertsSpacedExactly(intervalMs: int, m: Mode)
    requires 0 < intervalMs
    ensures AlwaysSpaced(intervalMs, m) <==> m.faultless && m.punctual
  {
    if !m.punctual {
      StalledInsertBreaksSpacing(intervalMs);
      LaxerModeAllows(intervalMs, NoFault, m, StalledTick);
    }
    if !m.faultless {
      FailedUpdateBreaksSpacing(intervalMs);
      LaxerModeAllows(intervalMs, NoDelay, m, FailedTick);
    }
    if m.faultless && m.punctual {
      forall acts | Legal(intervalMs, m, acts) ensures InsertsSpaced(intervalMs, Run(intervalMs, m, acts).log) {
        TimelyInsertsKeepTheCadence(intervalMs, m, acts);
      }
    }
  }
}
