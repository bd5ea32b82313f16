/**
  What each step of a tick does next, told from the log alone: who may take the lease, when an event
  is made, and whether its update counts.  Together they let events go on after any crash or stall.
 */
module LeaseProgress {
  import opened Options
  import opened StreamLease

  // ---------------------------------------------------------------- reading the log

  /** The latest entry of a kind. */
  function Latest(log: seq<Entry>, kind: Entry -> bool): (e: Option<Entry>)
    ensures e.Some? ==> e.value in log && kind(e.value)
    ensures e.None? <==> forall i | 0 <= i < |log| :: !kind(log[i])
  {
    if log == [] then None
    else if kind(log[|log| - 1]) then Some(log[|log| - 1])
    else Latest(log[..|log| - 1], kind)
  }

  predicate TakesOver(e: Entry) { e.Claimed? && e.takeover }

  predicate IsRecorded(e: Entry) { e.Recorded? }

  /** Whoever claimed the lease last, or extended it last by recording an event. */
  function LastGrant(log: seq<Entry>): (e: Option<Entry>)
    ensures e.Some? ==> Extends(e.value)
  {
    Latest(log, Extends)
  }

  /** The time of the event recorded last. */
  function LastTime(log: seq<Entry>): Option<int> {
    var e := Latest(log, IsRecorded);
    if e.None? then None else Some(e.value.at)
  }

  /** When the lease last changed hands. */
  function HeldSince(log: seq<Entry>): int {
    var e := Latest(log, TakesOver);
    if e.None? then 0 else e.value.now
  }

  lemma {:induction false} LatestAppend(log: seq<Entry>, e: Entry, kind: Entry -> bool)
    ensures Latest(log + [e], kind) == if kind(e) then Some(e) else Latest(log, kind)
  {
    assert (log + [e])[..|log|] == log;
  }

  predicate IsHolder(log: seq<Entry>, p: ProcessId) {
    LastGrant(log).Some? && LastGrant(log).value.owner == p
  }

  /** The lease is free to this process: never granted, its own, or expired. */
  predicate MayTake(log: seq<Entry>, p: ProcessId, now: int) {
    LastGrant(log).None? || IsHolder(log, p) || LastGrant(log).value.expiresAt < now
  }

  // ---------------------------------------------------------------- the lease row is told by the log

  ghost predicate LeaseTold(s: State) {
    && (s.lease.None? <==> LastGrant(s.log).None?)
    && (s.lease.None? <==> Latest(s.log, TakesOver).None?)
    && LastEvent(s) == LastTime(s.log)
    && (s.lease.Some? ==>
          s.lease.value == Lease(
            LastGrant(s.log).value.owner, LastGrant(s.log).value.expiresAt, HeldSince(s.log),
            LastTime(s.log), RecordsSinceTakeover(s.log)))
  }

  // Events carry positive times, and the update keeps them.
  ghost predicate TimesPositive(s: State) {
    && (forall p | p in s.procs && (s.procs[p].pc.Inserting? || s.procs[p].pc.Recording?) :: 0 < s.procs[p].pc.at)
    && (forall i | 0 <= i < |s.log| && s.log[i].Recorded? :: 0 < s.log[i].at)
  }

  // An entry that is no grant leaves the lease as it was.
  lemma OtherTold(s: State, s': State, e: Entry)
    requires LeaseTold(s) && s'.log == s.log + [e] && !Extends(e) && s'.lease == s.lease
    ensures LeaseTold(s')
  {
    AppendLatest(s.log, e);
  }

  lemma ClaimTold(s: State, s': State, e: Entry)
    requires LeaseTold(s) && s'.log == s.log + [e] && e.Claimed?
    requires e.takeover <==> !Owns(s, e.owner)
    requires s'.lease == Some(Lease(
                                e.owner, e.expiresAt, if e.takeover then e.now else s.lease.value.lastStartedAt,
                                LastEvent(s), if e.takeover then 0 else s.lease.value.eventsWritten))
    ensures LeaseTold(s')
  {
    AppendLatest(s.log, e);
  }

  lemma RecordTold(s: State, s': State, e: Entry)
    requires LeaseTold(s) && s'.log == s.log + [e] && e.Recorded? && Owns(s, e.owner)
    requires s'.lease == Some(Lease(
                                e.owner, e.expiresAt, s.lease.value.lastStartedAt,
                                Some(e.at), s.lease.value.eventsWritten + 1))
    ensures LeaseTold(s')
  {
    AppendLatest(s.log, e);
  }

  lemma {:induction false} AppendLatest(log: seq<Entry>, e: Entry)
    ensures LastGrant(log + [e]) == if Extends(e) then Some(e) else LastGrant(log)
    ensures Latest(log + [e], TakesOver) == if TakesOver(e) then Some(e) else Latest(log, TakesOver)
    ensures Latest(log + [e], IsRecorded) == if IsRecorded(e) then Some(e) else Latest(log, IsRecorded)
    ensures RecordsSinceTakeover(log + [e]) ==
            if TakesOver(e) then 0 else RecordsSinceTakeover(log) + if e.Recorded? then 1 else 0
  {
    LatestAppend(log, e, Extends);
    LatestAppend(log, e, TakesOver);
    LatestAppend(log, e, IsRecorded);
    AppendCounts(log, e);
  }

  lemma LeaseToldStep(intervalMs: int, s: State, a: Action)
    requires LeaseTold(s) && Enabled(Free, s, a)
    ensures LeaseTold(Apply(intervalMs, s, a))
  {
    var s' := Apply(intervalMs, s, a);
    if s'.log != s.log {
      var e := s'.log[|s'.log| - 1];
      assert s'.log == s.log + [e];
      if e.Claimed? {
        ClaimTold(s, s', e);
      } else if e.Recorded? {
        RecordTold(s, s', e);
      } else {
        OtherTold(s, s', e);
      }
    }
  }

  lemma TimesStep(intervalMs: int, s: State, a: Action)
    requires TimesPositive(s) && Enabled(Free, s, a)
    ensures TimesPositive(Apply(intervalMs, s, a))
  {
  }

  lemma {:induction false} EveryRunTellsTheLease(intervalMs: int, m: Mode, acts: seq<Action>)
    requires Legal(intervalMs, m, acts)
    ensures LeaseTold(Run(intervalMs, m, acts)) && TimesPositive(Run(intervalMs, m, acts))
  {
    if acts != [] {
      var before := acts[..|acts| - 1];
      EveryRunTellsTheLease(intervalMs, m, before);
      LeaseToldStep(intervalMs, Run(intervalMs, m, before), acts[|acts| - 1]);
      TimesStep(intervalMs, Run(intervalMs, m, before), acts[|acts| - 1]);
    }
  }

  // ---------------------------------------------------------------- processes are told by their actions

  /** A process exists once it has started, and has its history ready once it has prepared it. */
  lemma {:induction false} ProcessesFollowActions(intervalMs: int, m: Mode, acts: seq<Action>, p: ProcessId)
    requires Legal(intervalMs, m, acts)
    ensures var procs := Run(intervalMs, m, acts).procs;
            && (p in procs <==> Start(p) in acts)
            && (p in procs ==> (procs[p].historyReady <==> Prepare(p) in acts))
            && (p in procs ==> (procs[p].pc.Dead? <==> Crash(p) in acts))
            && (p !in procs ==> Prepare(p) !in acts && Crash(p) !in acts)
  {
    if acts != [] {
      var n := |acts| - 1;
      ProcessesFollowActions(intervalMs, m, acts[..n], p);
      assert acts == acts[..n] + [acts[n]];
    }
  }

  /** A crashed process never acts again, so its owner id is not used again either. */
  lemma {:induction false} CrashIsFinal(intervalMs: int, m: Mode, acts: seq<Action>, i: nat, j: nat)
    requires Legal(intervalMs, m, acts) && i < j < |acts| && acts[i].Crash?
    ensures acts[j].p != acts[i].p
    decreases |acts|
  {
    var n := |acts| - 1;
    if j < n {
      CrashIsFinal(intervalMs, m, acts[..n], i, j);
    } else {
      ProcessesFollowActions(intervalMs, m, acts[..n], acts[i].p);
      assert acts[..n][i] == acts[i];
      assert Crash(acts[i].p) in acts[..n];
    }
  }

  // ---------------------------------------------------------------- the claim

  /**
    In every run, an idle process takes the lease exactly when it was never granted, is its own, or has
    expired; the new lease keeps the last event, and the start and the counter exactly on a renewal.
   */
  lemma {:induction false} ClaimGrantedExactly(intervalMs: int, m: Mode, acts: seq<Action>, p: ProcessId, now: int)
    requires Legal(intervalMs, m, acts)
    requires var s := Run(intervalMs, m, acts); p in s.procs && s.procs[p].pc.Idle?
    ensures var s := Run(intervalMs, m, acts);
            var s' := Apply(intervalMs, s, Claim(p, now));
            var renews, last := IsHolder(s.log, p), LastTime(s.log);
            && (Pending(s'.procs[p].pc) <==> MayTake(s.log, p, now))
            && (MayTake(s.log, p, now) ==>
                  && s'.lease == Some(Lease(
                       p, now + 30_000,
                       if renews then HeldSince(s.log) else now,
                       last,
                       if renews then RecordsSinceTakeover(s.log) else 0))
                  && s'.log == s.log + [Claimed(p, !renews, now, now + 30_000, s.nextTick)]
                  && s'.procs[p].pc == (if Prepare(p) in acts then Guarding(last) else Preparing(last)))
            && (!MayTake(s.log, p, now) ==> s' == s.(dbClock := now))
  {
    EveryRunTellsTheLease(intervalMs, m, acts);
    ProcessesFollowActions(intervalMs, m, acts, p);
  }

  // ---------------------------------------------------------------- the decision

  // A pending tick was granted once, and saw the last event recorded before its grant.
  ghost predicate SawExactly(s: State, p: ProcessId)
    requires p in s.procs && Pending(s.procs[p].pc)
  {
    && s.procs[p].tick < s.nextTick
    && (exists c :: GrantedAt(s.log, s.procs[p].tick, c))
    && (forall c | GrantedAt(s.log, s.procs[p].tick, c) :: s.procs[p].pc.seen == LastTime(s.log[..c]))
  }

  ghost predicate SeenInv(s: State) {
    && (forall c | 0 <= c < |s.log| && s.log[c].Claimed? :: s.log[c].grants < s.nextTick)
    && (forall p | p in s.procs && Pending(s.procs[p].pc) :: SawExactly(s, p))
  }

  // The log grew by nothing that was granted to this tick.
  lemma SawStillExactly(s: State, s': State, p: ProcessId)
    requires p in s.procs && Pending(s.procs[p].pc) && SawExactly(s, p)
    requires p in s'.procs && Pending(s'.procs[p].pc)
    requires s'.procs[p].tick == s.procs[p].tick && s'.procs[p].pc.seen == s.procs[p].pc.seen
    requires s.nextTick <= s'.nextTick && s.log <= s'.log
    requires forall c | |s.log| <= c < |s'.log| && s'.log[c].Claimed? :: s'.log[c].grants != s.procs[p].tick
    ensures SawExactly(s', p)
  {
    var c :| GrantedAt(s.log, s.procs[p].tick, c);
    assert GrantedAt(s'.log, s'.procs[p].tick, c);
    forall c | GrantedAt(s'.log, s'.procs[p].tick, c) ensures s'.procs[p].pc.seen == LastTime(s'.log[..c]) {
      assert GrantedAt(s.log, s.procs[p].tick, c) && s'.log[..c] == s.log[..c];
    }
  }

  lemma SawAtItsClaim(intervalMs: int, s: State, a: Action)
    requires SeenInv(s) && LeaseTold(s) && Enabled(Free, s, a) && a.Claim?
    requires Pending(Apply(intervalMs, s, a).procs[a.p].pc)
    ensures SawExactly(Apply(intervalMs, s, a), a.p)
  {
    var s' := Apply(intervalMs, s, a);
    assert GrantedAt(s'.log, s.nextTick, |s.log|);
    forall c | GrantedAt(s'.log, s.nextTick, c) ensures s'.procs[a.p].pc.seen == LastTime(s'.log[..c]) {
      assert c == |s.log| && s'.log[..c] == s.log;
    }
  }

  lemma SawAfter(intervalMs: int, s: State, a: Action, p: ProcessId)
    requires SeenInv(s) && LeaseTold(s) && Enabled(Free, s, a)
    requires p in Apply(intervalMs, s, a).procs && Pending(Apply(intervalMs, s, a).procs[p].pc)
    ensures SawExactly(Apply(intervalMs, s, a), p)
  {
    if a.Claim? && p == a.p {
      SawAtItsClaim(intervalMs, s, a);
    } else {
      assert p in s.procs && Pending(s.procs[p].pc) && SawExactly(s, p);
      SawStillExactly(s, Apply(intervalMs, s, a), p);
    }
  }

  lemma GrantsStayOld(intervalMs: int, s: State, a: Action)
    requires Enabled(Free, s, a) && forall c | 0 <= c < |s.log| && s.log[c].Claimed? :: s.log[c].grants < s.nextTick
    ensures var s' := Apply(intervalMs, s, a);
            forall c | 0 <= c < |s'.log| && s'.log[c].Claimed? :: s'.log[c].grants < s'.nextTick
  {
  }

  lemma SeenStep(intervalMs: int, s: State, a: Action)
    requires SeenInv(s) && LeaseTold(s) && Enabled(Free, s, a)
    ensures SeenInv(Apply(intervalMs, s, a))
  {
    var s' := Apply(intervalMs, s, a);
    GrantsStayOld(intervalMs, s, a);
    forall p | p in s'.procs && Pending(s'.procs[p].pc) ensures SawExactly(s', p) {
      SawAfter(intervalMs, s, a, p);
    }
  }

  lemma {:induction false} EveryPendingTickSaw(intervalMs: int, m: Mode, acts: seq<Action>)
    requires Legal(intervalMs, m, acts)
    ensures SeenInv(Run(intervalMs, m, acts))
  {
    if acts != [] {
      var before := acts[..|acts| - 1];
      EveryPendingTickSaw(intervalMs, m, before);
      EveryRunTellsTheLease(intervalMs, m, before);
      SeenStep(intervalMs, Run(intervalMs, m, before), acts[|acts| - 1]);
    }
  }

  /** The event is due: there is none before it, or the clock is at least one interval past the last one. */
  predicate Due(last: Option<int>, clock: int, intervalMs: int) { last.None? || last.value + intervalMs <= clock }

  /**
    In every run, a tick that storage lets through makes an event exactly when one was due as of its own
    claim; and for a process that still holds the lease this is the last event recorded at all.
   */
  lemma {:induction false} DecisionExactly(
      intervalMs: int, m: Mode, acts: seq<Action>, p: ProcessId, check: int, stamp: int)
    requires 0 < intervalMs && Legal(intervalMs, m, acts) && 0 < check <= stamp
    requires var s := Run(intervalMs, m, acts); p in s.procs && s.procs[p].pc.Guarding?
    ensures var s := Run(intervalMs, m, acts);
            var through, stopped :=
              Apply(intervalMs, s, Decide(p, true, check, stamp)), Apply(intervalMs, s, Decide(p, false, check, stamp));
            && (exists c :: GrantedAt(s.log, s.procs[p].tick, c))
            && (forall c | GrantedAt(s.log, s.procs[p].tick, c) ::
                  var last := LastTime(s.log[..c]);
                  && through == s.(procs := through.procs) && through.procs.Keys == s.procs.Keys
                  && through.procs[p].pc ==
                       (if Due(last, check, intervalMs) then Inserting(last, stamp) else Idle)
                  && (IsHolder(s.log, p) ==> last == LastTime(s.log)))
            && stopped == s.(procs := s.procs[p := s.procs[p].(pc := Idle)])
  {
    EveryPendingTickSaw(intervalMs, m, acts);
    EveryRunTellsTheLease(intervalMs, m, acts);
    EveryRunKeepsCadence(intervalMs, m, acts);
    var s := Run(intervalMs, m, acts);
    HolderSawAll(intervalMs, s, p);
    forall c | GrantedAt(s.log, s.procs[p].tick, c) ensures s.procs[p].pc.seen == LastTime(s.log[..c]) {
      assert SawExactly(s, p);
      SeenIsPositive(s, c);
    }
    DecideOf(intervalMs, s, p, check, stamp);
  }

  lemma HolderSawAll(intervalMs: int, s: State, p: ProcessId)
    requires CadenceInv(intervalMs, s) && LeaseTold(s) && p in s.procs && Pending(s.procs[p].pc)
    ensures IsHolder(s.log, p) ==> s.procs[p].pc.seen == LastTime(s.log)
  {
    assert CarriesCurrent(intervalMs, s, p);
  }

  // Recorded events carry positive times, whatever prefix of the log is read.
  lemma SeenIsPositive(s: State, c: nat)
    requires TimesPositive(s) && c <= |s.log|
    ensures LastTime(s.log[..c]).Some? ==> 0 < LastTime(s.log[..c]).value
  {
    if LastTime(s.log[..c]).Some? {
      var e := Latest(s.log[..c], IsRecorded).value;
      var i :| 0 <= i < c && s.log[..c][i] == e;
      assert s.log[i] == e;
    }
  }

  lemma DecideOf(intervalMs: int, s: State, p: ProcessId, check: int, stamp: int)
    requires p in s.procs && s.procs[p].pc.Guarding? && 0 < check <= stamp
    requires s.procs[p].pc.seen.Some? ==> 0 < s.procs[p].pc.seen.value
    ensures var seen := s.procs[p].pc.seen;
            Apply(intervalMs, s, Decide(p, true, check, stamp)) ==
            Goto(s, p, if Due(seen, check, intervalMs) then Inserting(seen, stamp) else Idle)
    ensures Apply(intervalMs, s, Decide(p, false, check, stamp)) == Goto(s, p, Idle)
  {
  }

  // ---------------------------------------------------------------- the insert and its update

  /**
    In every run, the closing update counts the tick's event exactly when its process still holds the
    lease, and then extends the lease; otherwise the inserted event is abandoned and the lease is left alone.
   */
  lemma {:induction false} UpdateCountsExactly(intervalMs: int, m: Mode, acts: seq<Action>, p: ProcessId, now: int)
    requires Legal(intervalMs, m, acts)
    requires var s := Run(intervalMs, m, acts); p in s.procs && s.procs[p].pc.Recording?
    ensures var s := Run(intervalMs, m, acts);
            var s' := Apply(intervalMs, s, Record(p, now));
            var me := s.procs[p];
            && s'.procs == s.procs[p := me.(pc := Finishing)] && s'.dbClock == now
            && (IsHolder(s.log, p) ==>
                  && s'.log == s.log + [Recorded(p, me.tick, me.pc.at, now, now + 30_000)]
                  && s'.lease == Some(Lease(
                       p, now + 30_000, HeldSince(s.log), Some(me.pc.at),
                       RecordsSinceTakeover(s.log) + 1)))
            && (!IsHolder(s.log, p) ==> s'.log == s.log + [Abandoned(me.tick, LeaseLost)] && s'.lease == s.lease)
  {
    EveryRunTellsTheLease(intervalMs, m, acts);
  }

  /** A failed statement ends the tick, a crash the process; either abandons an event that was inserted only. */
  lemma StopExactly(intervalMs: int, s: State, p: ProcessId)
    requires Enabled(Free, s, Fail(p)) && Enabled(Free, s, Crash(p))
    ensures var failed, crashed := Apply(intervalMs, s, Fail(p)), Apply(intervalMs, s, Crash(p));
            var me := s.procs[p];
            && failed == s.(procs := s.procs[p := me.(pc := Idle)], log := failed.log)
            && crashed == s.(procs := s.procs[p := me.(pc := Dead)], log := crashed.log)
            && (me.pc.Recording? ==>
                  && failed.log == s.log + [Abandoned(me.tick, StatementFailed)]
                  && crashed.log == s.log + [Abandoned(me.tick, ProcessCrashed)])
            && (!me.pc.Recording? ==> failed.log == crashed.log == s.log)
  {
  }

  // ---------------------------------------------------------------- events go on

  // The steps of one whole tick; the first one of a process prepares the history.
  function WholeTick(p: ProcessId, prepared: bool, now: int, check: int, stamp: int, later: int): seq<Action> {
    [Claim(p, now)] + (if prepared then [] else [Prepare(p)])
    + [Decide(p, true, check, stamp), Insert(p), Record(p, later), Finish(p)]
  }

  lemma {:induction false} OneMoreStep(intervalMs: int, acts: seq<Action>, a: Action)
    requires Legal(intervalMs, Free, acts) && Enabled(Free, Run(intervalMs, Free, acts), a)
    ensures Legal(intervalMs, Free, acts + [a])
    ensures Run(intervalMs, Free, acts + [a]) == Apply(intervalMs, Run(intervalMs, Free, acts), a)
  {
    assert (acts + [a])[..|acts|] == acts;
  }

  // The claim, and the preparation when it is due, bring the process to its decision.
  lemma {:induction false} TickReachesDecision(intervalMs: int, acts: seq<Action>, p: ProcessId, now: int)
      returns (longer: seq<Action>)
    requires Legal(intervalMs, Free, acts)
    requires var s := Run(intervalMs, Free, acts); p in s.procs && s.procs[p].pc.Idle? && MayTake(s.log, p, now)
    ensures longer == acts + [Claim(p, now)] + if Prepare(p) in acts then [] else [Prepare(p)]
    ensures Legal(intervalMs, Free, longer)
    ensures var s, s' := Run(intervalMs, Free, acts), Run(intervalMs, Free, longer);
            && p in s'.procs && s'.procs[p] == Process(Guarding(LastTime(s.log)), s.nextTick, now + 30_000, true)
            && s'.log == s.log + [Claimed(p, !IsHolder(s.log, p), now, now + 30_000, s.nextTick)]
  {
    var claim := Claim(p, now);
    ClaimGrantedExactly(intervalMs, Free, acts, p, now);
    ProcessesFollowActions(intervalMs, Free, acts, p);
    OneMoreStep(intervalMs, acts, claim);
    longer := acts + [claim];
    if Prepare(p) !in acts {
      OneMoreStep(intervalMs, longer, Prepare(p));
      longer := longer + [Prepare(p)];
    } else {
      assert longer == longer + [];
    }
  }

  // A tick that is due inserts its event.
  lemma {:induction false} TickInserts(intervalMs: int, acts: seq<Action>, p: ProcessId, check: int, stamp: int)
    requires Legal(intervalMs, Free, acts) && 0 < check <= stamp
    requires var s := Run(intervalMs, Free, acts);
             p in s.procs && s.procs[p].pc.Guarding? && Due(s.procs[p].pc.seen, check, intervalMs)
    ensures var s, longer := Run(intervalMs, Free, acts), acts + [Decide(p, true, check, stamp)] + [Insert(p)];
            && Legal(intervalMs, Free, longer)
            && Run(intervalMs, Free, longer) ==
               s.(procs := s.procs[p := s.procs[p].(pc := Recording(s.procs[p].pc.seen, stamp))],
                  log := s.log + [Inserted(s.procs[p].tick, stamp)])
  {
    var decide := Decide(p, true, check, stamp);
    OneMoreStep(intervalMs, acts, decide);
    OneMoreStep(intervalMs, acts + [decide], Insert(p));
    var s := Run(intervalMs, Free, acts);
    assert Run(intervalMs, Free, acts + [decide] + [Insert(p)]).procs
        == s.procs[p := s.procs[p].(pc := Recording(s.procs[p].pc.seen, stamp))];
  }

  // A tick that has inserted its event and still holds the lease has it counted.
  lemma {:induction false} TickRecords(intervalMs: int, acts: seq<Action>, p: ProcessId, later: int)
    requires Legal(intervalMs, Free, acts)
    requires var s := Run(intervalMs, Free, acts);
             p in s.procs && s.procs[p].pc.Recording? && IsHolder(s.log, p)
    ensures var s, longer := Run(intervalMs, Free, acts), acts + [Record(p, later)] + [Finish(p)];
            && Legal(intervalMs, Free, longer)
            && var s' := Run(intervalMs, Free, longer);
               && p in s'.procs && s'.procs[p].pc.Idle?
               && s'.log == s.log + [Recorded(p, s.procs[p].tick, s.procs[p].pc.at, later, later + 30_000)]
  {
    UpdateCountsExactly(intervalMs, Free, acts, p, later);
    OneMoreStep(intervalMs, acts, Record(p, later));
    OneMoreStep(intervalMs, acts + [Record(p, later)], Finish(p));
  }

  // From its decision on, a tick that is due and keeps the lease inserts and records its event.
  lemma {:induction false} TickCompletes(
      intervalMs: int, acts: seq<Action>, p: ProcessId, check: int, stamp: int, later: int)
    requires Legal(intervalMs, Free, acts) && 0 < check <= stamp
    requires var s := Run(intervalMs, Free, acts);
             && p in s.procs && s.procs[p].pc.Guarding? && IsHolder(s.log, p)
             && Due(s.procs[p].pc.seen, check, intervalMs)
    ensures var s := Run(intervalMs, Free, acts);
            var longer := acts + [Decide(p, true, check, stamp), Insert(p), Record(p, later), Finish(p)];
            && Legal(intervalMs, Free, longer)
            && var s' := Run(intervalMs, Free, longer);
               && p in s'.procs && s'.procs[p].pc.Idle?
               && s'.log == s.log + [Inserted(s.procs[p].tick, stamp),
                                     Recorded(p, s.procs[p].tick, stamp, later, later + 30_000)]
  {
    var s, inserted := Run(intervalMs, Free, acts), acts + [Decide(p, true, check, stamp)] + [Insert(p)];
    assert inserted + [Record(p, later)] + [Finish(p)]
        == acts + [Decide(p, true, check, stamp), Insert(p), Record(p, later), Finish(p)];
    TickInserts(intervalMs, acts, p, check, stamp);
    AppendLatest(s.log, Inserted(s.procs[p].tick, stamp));
    TickRecords(intervalMs, inserted, p, later);
  }

  /**
    Whatever has happened before, once the lease is free to an idle process and an event is due, one whole
    tick of it takes the lease, inserts the event, and has it counted.
   */
  lemma {:induction false} EventsGoOn(
      intervalMs: int, acts: seq<Action>, p: ProcessId, now: int, check: int, stamp: int, later: int)
    requires Legal(intervalMs, Free, acts) && 0 < check <= stamp
    requires var s := Run(intervalMs, Free, acts);
             && p in s.procs && s.procs[p].pc.Idle? && MayTake(s.log, p, now)
             && Due(LastTime(s.log), check, intervalMs)
    ensures var s := Run(intervalMs, Free, acts);
            var longer := acts + WholeTick(p, Prepare(p) in acts, now, check, stamp, later);
            && Legal(intervalMs, Free, longer)
            && var s' := Run(intervalMs, Free, longer);
               && p in s'.procs && s'.procs[p].pc.Idle?
               && s'.log == s.log + [Claimed(p, !IsHolder(s.log, p), now, now + 30_000, s.nextTick),
                                     Inserted(s.nextTick, stamp),
                                     Recorded(p, s.nextTick, stamp, later, later + 30_000)]
  {
    var s := Run(intervalMs, Free, acts);
    var middle := TickReachesDecision(intervalMs, acts, p, now);
    var claimed := Claimed(p, !IsHolder(s.log, p), now, now + 30_000, s.nextTick);
    LatestAppend(s.log, claimed, Extends);
    TickCompletes(intervalMs, middle, p, check, stamp, later);
    assert middle + [Decide(p, true, check, stamp), Insert(p), Record(p, later), Finish(p)]
        == acts + WholeTick(p, Prepare(p) in acts, now, check, stamp, later);
  }
}
