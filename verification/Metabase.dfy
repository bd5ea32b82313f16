/** Provisioning of dashboards by find-or-create requests, interrupted anywhere and run again. */
module Metabase {
  import opened Options

  // ---------------------------------------------------------------- the server

  datatype DashCard = DashCard(cardId: nat, row: nat, col: nat, sizeX: nat, sizeY: nat)

  datatype Dashboard = Dashboard(name: string, description: string, dashcards: seq<DashCard>)

  // A card as the manifest lists it and as the server stores it: a query and how its result is displayed.
  datatype CardConfig = CardConfig(name: string, query: string, display: string)

  // The server numbers dashboards and cards in order of creation; both are found by their names.
  datatype Server = Server(dashboards: seq<Dashboard>, cards: seq<CardConfig>)

  const EmptyServer := Server([], [])

  /** The first dashboard of that name. */
  function FindDashboard(dashboards: seq<Dashboard>, name: string): (found: Option<nat>)
    ensures found.Some? ==> found.value < |dashboards| && dashboards[found.value].name == name
    ensures forall i | 0 <= i < (if found.Some? then found.value else |dashboards|) :: dashboards[i].name != name
  {
    if dashboards == [] then None
    else
      var n := |dashboards| - 1;
      var before := FindDashboard(dashboards[..n], name);
      if before.Some? then before else if dashboards[n].name == name then Some(n) else None
  }

  function FindCard(cards: seq<CardConfig>, name: string): (found: Option<nat>)
    ensures found.Some? ==> found.value < |cards| && cards[found.value].name == name
    ensures forall i | 0 <= i < (if found.Some? then found.value else |cards|) :: cards[i].name != name
  {
    if cards == [] then None
    else
      var n := |cards| - 1;
      var before := FindCard(cards[..n], name);
      if before.Some? then before else if cards[n].name == name then Some(n) else None
  }

  predicate IsAttached(dashcards: seq<DashCard>, card: nat) {
    exists j | 0 <= j < |dashcards| :: dashcards[j].cardId == card
  }

  /** Two cards a row, each nine columns wide and four rows high. */
  function Placed(card: nat, position: nat): DashCard { DashCard(card, position / 2 * 4, position % 2 * 9, 9, 4) }

  // ---------------------------------------------------------------- the requests of one run

  datatype DashboardConfig = DashboardConfig(name: string, description: string, cards: seq<CardConfig>)

  // Each of these looks first and writes at most once, so a run is interrupted between two of them.
  datatype Op =
    | EnsureDashboard(dashboard: string, description: string)
    | EnsureCard(config: CardConfig)
    | Attach(dashboard: string, card: string, position: nat)

  function Step(s: Server, op: Op): Server {
    match op
    case EnsureDashboard(name, description) =>
      if FindDashboard(s.dashboards, name).Some? then s
      else Server(s.dashboards + [Dashboard(name, description, [])], s.cards)
    case EnsureCard(config) =>
      if FindCard(s.cards, config.name).Some? then s else Server(s.dashboards, s.cards + [config])
    case Attach(dashboard, card, position) =>
      var i, k := FindDashboard(s.dashboards, dashboard), FindCard(s.cards, card);
      if i.None? || k.None? then s else AttachTo(s, i.value, k.value, position)
  }

  function AttachTo(s: Server, i: nat, card: nat, position: nat): Server
    requires i < |s.dashboards|
  {
    var d := s.dashboards[i];
    if IsAttached(d.dashcards, card) then s
    else Server(s.dashboards[i := d.(dashcards := d.dashcards + [Placed(card, position)])], s.cards)
  }

  function Execute(s: Server, ops: seq<Op>): Server {
    if ops == [] then s else Step(Execute(s, ops[..|ops| - 1]), ops[|ops| - 1])
  }

  function CardOps(c: DashboardConfig, n: nat): seq<Op>
    requires n <= |c.cards|
  {
    if n == 0 then []
    else CardOps(c, n - 1) + [EnsureCard(c.cards[n - 1]), Attach(c.name, c.cards[n - 1].name, n - 1)]
  }

  function DashboardOps(c: DashboardConfig): seq<Op> {
    [EnsureDashboard(c.name, c.description)] + CardOps(c, |c.cards|)
  }

  /** What an uninterrupted run asks for, in order. */
  function Program(manifest: seq<DashboardConfig>): seq<Op> {
    if manifest == [] then [] else Program(manifest[..|manifest| - 1]) + DashboardOps(manifest[|manifest| - 1])
  }

  // ---------------------------------------------------------------- find-or-create converges

  predicate Done(s: Server, op: Op) {
    match op
    case EnsureDashboard(name, _) => FindDashboard(s.dashboards, name).Some?
    case EnsureCard(config) => FindCard(s.cards, config.name).Some?
    case Attach(dashboard, card, _) =>
      && FindDashboard(s.dashboards, dashboard).Some? && FindCard(s.cards, card).Some?
      && IsAttached(s.dashboards[FindDashboard(s.dashboards, dashboard).value].dashcards, FindCard(s.cards, card).value)
  }

  predicate Ready(s: Server, op: Op) {
    op.Attach? ==> FindDashboard(s.dashboards, op.dashboard).Some? && FindCard(s.cards, op.card).Some?
  }

  // Whatever later requests add, the first dashboard and the first card of a name stay the same.
  lemma {:induction false} FindStays(s: Server, op: Op, name: string)
    ensures var s' := Step(s, op);
            && (FindDashboard(s.dashboards, name).Some? ==>
                  FindDashboard(s'.dashboards, name) == FindDashboard(s.dashboards, name))
            && (FindCard(s.cards, name).Some? ==> FindCard(s'.cards, name) == FindCard(s.cards, name))
  {
    var s' := Step(s, op);
    var found := FindDashboard(s.dashboards, name);
    if found.Some? {
      assert forall i | 0 <= i < |s.dashboards| :: s'.dashboards[i].name == s.dashboards[i].name;
      FoundFirst(s'.dashboards, name, found.value);
    }
    if FindCard(s.cards, name).Some? { FoundFirstCard(s'.cards, name, FindCard(s.cards, name).value); }
  }

  lemma {:induction false} FoundFirst(dashboards: seq<Dashboard>, name: string, i: nat)
    requires i < |dashboards| && dashboards[i].name == name && forall j | 0 <= j < i :: dashboards[j].name != name
    ensures FindDashboard(dashboards, name) == Some(i)
  {
  }

  lemma {:induction false} FoundFirstCard(cards: seq<CardConfig>, name: string, i: nat)
    requires i < |cards| && cards[i].name == name && forall j | 0 <= j < i :: cards[j].name != name
    ensures FindCard(cards, name) == Some(i)
  {
  }

  lemma StepDoes(s: Server, op: Op)
    requires Ready(s, op)
    ensures Done(Step(s, op), op)
  {
    match op
    case EnsureDashboard(name, _) =>
      var s' := Step(s, op);
      assert s'.dashboards[|s'.dashboards| - 1].name == name || s' == s;
    case EnsureCard(config) =>
      var s' := Step(s, op);
      assert s'.cards[|s'.cards| - 1].name == config.name || s' == s;
    case Attach(dashboard, card, position) =>
      FindStays(s, op, dashboard);
      FindStays(s, op, card);
      var i, k := FindDashboard(s.dashboards, dashboard).value, FindCard(s.cards, card).value;
      var before, after := s.dashboards[i].dashcards, Step(s, op).dashboards[i].dashcards;
      assert after != before ==> after[|before|].cardId == k;
  }

  lemma DoneStays(s: Server, op: Op, other: Op)
    requires Done(s, op)
    ensures Done(Step(s, other), op)
  {
    match op
    case EnsureDashboard(name, _) => FindStays(s, other, name);
    case EnsureCard(config) => FindStays(s, other, config.name);
    case Attach(dashboard, card, _) =>
      FindStays(s, other, dashboard);
      FindStays(s, other, card);
      var i, k := FindDashboard(s.dashboards, dashboard).value, FindCard(s.cards, card).value;
      var j :| 0 <= j < |s.dashboards[i].dashcards| && s.dashboards[i].dashcards[j].cardId == k;
      assert Step(s, other).dashboards[i].dashcards[j].cardId == k;
  }

  lemma DoneSkips(s: Server, op: Op)
    requires Done(s, op)
    ensures Step(s, op) == s
  {
  }

  predicate MakesDashboard(op: Op, name: string) { op.EnsureDashboard? && op.dashboard == name }

  predicate MakesCard(op: Op, name: string) { op.EnsureCard? && op.config.name == name }

  /** The request at k, when it is an attachment, comes after those that make its dashboard and its card. */
  ghost predicate OrderedAt(ops: seq<Op>, k: nat)
    requires k < |ops|
  {
    ops[k].Attach? ==>
      && (exists a :: 0 <= a < k && MakesDashboard(ops[a], ops[k].dashboard))
      && (exists b :: 0 <= b < k && MakesCard(ops[b], ops[k].card))
  }

  ghost predicate WellOrdered(ops: seq<Op>) { forall k | 0 <= k < |ops| :: OrderedAt(ops, k) }

  // What is in order within a stretch is in order within the whole.
  lemma OrderedWithin(part: seq<Op>, all: seq<Op>, shift: nat, k: nat)
    requires k < |part| && shift + k < |all| && OrderedAt(part, k)
    requires forall i | shift <= i <= shift + k :: all[i] == part[i - shift]
    ensures OrderedAt(all, shift + k)
  {
    if part[k].Attach? {
      var a :| 0 <= a < k && MakesDashboard(part[a], part[k].dashboard);
      assert MakesDashboard(all[shift + a], part[k].dashboard);
      var b :| 0 <= b < k && MakesCard(part[b], part[k].card);
      assert MakesCard(all[shift + b], part[k].card);
    }
  }

  lemma WellOrderedPrefix(ops: seq<Op>, n: nat)
    requires WellOrdered(ops) && n <= |ops|
    ensures WellOrdered(ops[..n])
  {
    forall k: nat | k < n ensures OrderedAt(ops[..n], k) {
      OrderedWithin(ops, ops[..n], 0, k);
    }
  }

  lemma {:induction false} ExecuteDoesAll(s: Server, ops: seq<Op>)
    requires WellOrdered(ops)
    ensures forall k | 0 <= k < |ops| :: Done(Execute(s, ops), ops[k])
  {
    if ops != [] {
      var n := |ops| - 1;
      WellOrderedPrefix(ops, n);
      ExecuteDoesAll(s, ops[..n]);
      StepDoesNext(Execute(s, ops[..n]), ops, n);
    }
  }

  lemma ReadyNext(before: Server, ops: seq<Op>, n: nat)
    requires WellOrdered(ops) && n < |ops| && forall k | 0 <= k < n :: Done(before, ops[..n][k])
    ensures Ready(before, ops[n])
  {
    assert OrderedAt(ops, n);
    if ops[n].Attach? {
      var a :| 0 <= a < n && MakesDashboard(ops[a], ops[n].dashboard);
      var b :| 0 <= b < n && MakesCard(ops[b], ops[n].card);
      assert Done(before, ops[..n][a]) && Done(before, ops[..n][b]);
    }
  }

  lemma StepDoesNext(before: Server, ops: seq<Op>, n: nat)
    requires WellOrdered(ops) && n < |ops| && forall k | 0 <= k < n :: Done(before, ops[..n][k])
    ensures forall k | 0 <= k <= n :: Done(Step(before, ops[n]), ops[k])
  {
    ReadyNext(before, ops, n);
    StepDoes(before, ops[n]);
    forall k | 0 <= k < n ensures Done(Step(before, ops[n]), ops[k]) {
      assert Done(before, ops[..n][k]);
      DoneStays(before, ops[k], ops[n]);
    }
  }

  /** The later server has everything the earlier one had, where it was and as it was; additions come at the ends. */
  ghost predicate GrownFrom(s: Server, s': Server) {
    && s.cards <= s'.cards && |s.dashboards| <= |s'.dashboards|
    && forall i | 0 <= i < |s.dashboards| ::
         && s'.dashboards[i].name == s.dashboards[i].name
         && s'.dashboards[i].description == s.dashboards[i].description
         && s.dashboards[i].dashcards <= s'.dashboards[i].dashcards
  }

  lemma StepGrows(s: Server, op: Op)
    ensures GrownFrom(s, Step(s, op))
  {
  }

  lemma GrownThrough(s: Server, t: Server, u: Server)
    requires GrownFrom(s, t) && GrownFrom(t, u)
    ensures GrownFrom(s, u)
  {
  }

  /** Provisioning never changes, moves or removes anything that was on the server. */
  lemma {:induction false} NothingIsDisturbed(s: Server, ops: seq<Op>)
    ensures GrownFrom(s, Execute(s, ops))
  {
    if ops != [] {
      var before := Execute(s, ops[..|ops| - 1]);
      NothingIsDisturbed(s, ops[..|ops| - 1]);
      StepGrows(before, ops[|ops| - 1]);
      GrownThrough(s, before, Execute(s, ops));
    }
  }

  function Max(a: nat, b: nat): nat { if a < b then b else a }

  /** A second run on top of an interrupted one leaves exactly what the longer of the two leaves alone. */
  lemma {:induction false} RerunGoesOn(s: Server, ops: seq<Op>, k: nat, m: nat)
    requires WellOrdered(ops) && k <= |ops| && m <= |ops|
    ensures Execute(Execute(s, ops[..k]), ops[..m]) == Execute(s, ops[..Max(k, m)])
    decreases m
  {
    if m > 0 {
      RerunGoesOn(s, ops, k, m - 1);
      ExecuteNext(Execute(s, ops[..k]), ops, m);
      if m <= k {
        WellOrderedPrefix(ops, k);
        ExecuteDoesAll(s, ops[..k]);
        assert ops[..k][m - 1] == ops[m - 1];
        DoneSkips(Execute(s, ops[..k]), ops[m - 1]);
      } else {
        ExecuteNext(s, ops, m);
      }
    }
  }

  lemma {:induction false} ExecuteNext(s: Server, ops: seq<Op>, m: nat)
    requires 0 < m <= |ops|
    ensures Execute(s, ops[..m]) == Step(Execute(s, ops[..m - 1]), ops[m - 1])
  {
    assert ops[..m][..m - 1] == ops[..m - 1];
  }

  lemma {:induction false} ExecuteAppend(s: Server, a: seq<Op>, b: seq<Op>)
    ensures Execute(s, a + b) == Execute(Execute(s, a), b)
  {
    if b == [] {
      assert a + b == a;
    } else {
      assert (a + b)[..|a + b| - 1] == a + b[..|b| - 1];
      ExecuteAppend(s, a, b[..|b| - 1]);
    }
  }

  /** Runs that each die after so many requests, one after the other. */
  function Interrupted(s: Server, ops: seq<Op>, cuts: seq<nat>): Server
    requires forall i | 0 <= i < |cuts| :: cuts[i] <= |ops|
  {
    if cuts == [] then s else Execute(Interrupted(s, ops, cuts[..|cuts| - 1]), ops[..cuts[|cuts| - 1]])
  }

  lemma {:induction false} InterruptedIsPrefix(s: Server, ops: seq<Op>, cuts: seq<nat>) returns (k: nat)
    requires WellOrdered(ops) && forall i | 0 <= i < |cuts| :: cuts[i] <= |ops|
    ensures k <= |ops| && Interrupted(s, ops, cuts) == Execute(s, ops[..k])
  {
    k := 0;
    if cuts != [] {
      var last := cuts[|cuts| - 1];
      k := InterruptedIsPrefix(s, ops, cuts[..|cuts| - 1]);
      RerunGoesOn(s, ops, k, last);
      k := Max(k, last);
    }
  }

  lemma {:induction false} WholeRerun(s: Server, ops: seq<Op>, k: nat)
    requires WellOrdered(ops) && k <= |ops|
    ensures Execute(Execute(s, ops[..k]), ops) == Execute(s, ops)
  {
    RerunGoesOn(s, ops, k, |ops|);
    assert ops[..|ops|] == ops;
  }

  lemma {:induction false} InterruptedThenWhole(s: Server, ops: seq<Op>, cuts: seq<nat>)
    requires WellOrdered(ops) && forall i | 0 <= i < |cuts| :: cuts[i] <= |ops|
    ensures Execute(Interrupted(s, ops, cuts), ops) == Execute(s, ops)
    ensures Execute(Execute(s, ops), ops) == Execute(s, ops)
  {
    var k := InterruptedIsPrefix(s, ops, cuts);
    WholeRerun(s, ops, k);
    WholeRerun(s, ops, |ops|);
    assert ops[..|ops|] == ops;
  }

  /** From any server, interrupted runs and then a complete one leave exactly what one complete run would have left. */
  lemma {:induction false} InterruptedRunsConverge(s: Server, manifest: seq<DashboardConfig>, cuts: seq<nat>)
    requires forall i | 0 <= i < |cuts| :: cuts[i] <= |Program(manifest)|
    ensures Execute(Interrupted(s, Program(manifest), cuts), Program(manifest)) == Execute(s, Program(manifest))
    ensures Execute(Execute(s, Program(manifest)), Program(manifest)) == Execute(s, Program(manifest))
  {
    ProgramWellOrdered(manifest);
    InterruptedThenWhole(s, Program(manifest), cuts);
  }

  lemma WellOrderedAppend(a: seq<Op>, b: seq<Op>)
    requires WellOrdered(a) && WellOrdered(b)
    ensures WellOrdered(a + b)
  {
    forall k: nat | k < |a + b| ensures OrderedAt(a + b, k) {
      if k < |a| {
        OrderedWithin(a, a + b, 0, k);
      } else {
        OrderedWithin(b, a + b, |a|, k - |a|);
      }
    }
  }

  lemma {:induction false} CardOpsWellOrdered(c: DashboardConfig, n: nat)
    requires n <= |c.cards|
    ensures WellOrdered([EnsureDashboard(c.name, c.description)] + CardOps(c, n))
  {
    if n > 0 {
      CardOpsWellOrdered(c, n - 1);
      var first := EnsureDashboard(c.name, c.description);
      CardWellOrdered([first] + CardOps(c, n - 1), c.name, c.cards[n - 1], n - 1);
      assert [first] + CardOps(c, n) ==
             [first] + CardOps(c, n - 1) + [EnsureCard(c.cards[n - 1]), Attach(c.name, c.cards[n - 1].name, n - 1)];
    }
  }

  lemma CardWellOrdered(before: seq<Op>, dashboard: string, card: CardConfig, position: nat)
    requires WellOrdered(before) && before != [] && MakesDashboard(before[0], dashboard)
    ensures WellOrdered(before + [EnsureCard(card), Attach(dashboard, card.name, position)])
  {
    var all := before + [EnsureCard(card), Attach(dashboard, card.name, position)];
    forall k: nat | k < |all| ensures OrderedAt(all, k) {
      if k < |before| {
        OrderedWithin(before, all, 0, k);
      } else {
        assert MakesDashboard(all[0], dashboard) && MakesCard(all[|before|], card.name);
      }
    }
  }

  lemma {:induction false} ProgramWellOrdered(manifest: seq<DashboardConfig>)
    ensures WellOrdered(Program(manifest))
  {
    if manifest != [] {
      var last := manifest[|manifest| - 1];
      ProgramWellOrdered(manifest[..|manifest| - 1]);
      CardOpsWellOrdered(last, |last.cards|);
      WellOrderedAppend(Program(manifest[..|manifest| - 1]), DashboardOps(last));
    }
  }

  // ---------------------------------------------------------------- what a complete run leaves

  predicate DistinctNames(manifest: seq<DashboardConfig>) {
    forall i, j | 0 <= i < j < |manifest| :: manifest[i].name != manifest[j].name
  }

  predicate ListedAt(manifest: seq<DashboardConfig>, dashboard: string, card: string, position: nat) {
    exists i | 0 <= i < |manifest| ::
      manifest[i].name == dashboard && position < |manifest[i].cards| && manifest[i].cards[position].name == card
  }

  ghost predicate IsListed(manifest: seq<DashboardConfig>, card: string) {
    exists dashboard, position :: ListedAt(manifest, dashboard, card, position)
  }

  // The card, query and display included, is one that the manifest lists.
  ghost predicate IsConfigured(manifest: seq<DashboardConfig>, card: CardConfig) {
    exists i :: 0 <= i < |manifest| && card in manifest[i].cards
  }

  predicate IsDescribed(manifest: seq<DashboardConfig>, dashboard: string, description: string) {
    exists i | 0 <= i < |manifest| :: manifest[i].name == dashboard && manifest[i].description == description
  }

  predicate IsNamed(manifest: seq<DashboardConfig>, dashboard: string) {
    exists i | 0 <= i < |manifest| :: manifest[i].name == dashboard
  }

  // The request is one that the manifest gives rise to.
  ghost predicate Wanted(manifest: seq<DashboardConfig>, op: Op) {
    match op
    case EnsureDashboard(name, description) => IsDescribed(manifest, name, description)
    case EnsureCard(config) => IsConfigured(manifest, config)
    case Attach(dashboard, card, position) => ListedAt(manifest, dashboard, card, position)
  }

  // A dashcard shows a card that its dashboard lists, at the place of the listing.
  ghost predicate RightlyPlaced(
      manifest: seq<DashboardConfig>, cards: seq<CardConfig>, dashboard: string, x: DashCard) {
    && x.cardId < |cards|
    && exists p: nat :: ListedAt(manifest, dashboard, cards[x.cardId].name, p)
                   && x == DashCard(x.cardId, p / 2 * 4, p % 2 * 9, 9, 4)
  }

  ghost predicate DashboardSane(manifest: seq<DashboardConfig>, cards: seq<CardConfig>, d: Dashboard) {
    && IsDescribed(manifest, d.name, d.description)
    && (forall j | 0 <= j < |d.dashcards| :: RightlyPlaced(manifest, cards, d.name, d.dashcards[j]))
    && (forall j, k | 0 <= j < k < |d.dashcards| :: d.dashcards[j].cardId != d.dashcards[k].cardId)
  }

  /** No name twice, nothing that the manifest does not ask for, every card where its listing puts it. */
  ghost predicate Sane(manifest: seq<DashboardConfig>, s: Server) {
    && (forall i, j | 0 <= i < j < |s.dashboards| :: s.dashboards[i].name != s.dashboards[j].name)
    && (forall i, j | 0 <= i < j < |s.cards| :: s.cards[i].name != s.cards[j].name)
    && (forall i | 0 <= i < |s.cards| :: IsConfigured(manifest, s.cards[i]))
    && (forall i | 0 <= i < |s.dashboards| :: DashboardSane(manifest, s.cards, s.dashboards[i]))
  }

  lemma DashboardStaysSane(manifest: seq<DashboardConfig>, cards: seq<CardConfig>, more: seq<CardConfig>, d: Dashboard)
    requires DashboardSane(manifest, cards, d) && cards <= more
    ensures DashboardSane(manifest, more, d)
  {
  }

  lemma StepKeepsSane(manifest: seq<DashboardConfig>, s: Server, op: Op)
    requires Sane(manifest, s) && Wanted(manifest, op)
    ensures Sane(manifest, Step(s, op))
  {
    var s' := Step(s, op);
    if op.Attach? && s' != s {
      var i, k := FindDashboard(s.dashboards, op.dashboard).value, FindCard(s.cards, op.card).value;
      var d := s.dashboards[i];
      assert RightlyPlaced(manifest, s.cards, d.name, Placed(k, op.position));
      assert DashboardSane(manifest, s.cards, s'.dashboards[i]) by {
        assert forall j | 0 <= j < |d.dashcards| :: RightlyPlaced(manifest, s.cards, d.name, d.dashcards[j]);
      }
    }
    forall i | 0 <= i < |s'.dashboards| ensures DashboardSane(manifest, s'.cards, s'.dashboards[i]) {
      if i < |s.dashboards| && s'.dashboards[i] == s.dashboards[i] {
        DashboardStaysSane(manifest, s.cards, s'.cards, s.dashboards[i]);
      }
    }
  }

  lemma {:induction false} ExecuteKeepsSane(manifest: seq<DashboardConfig>, s: Server, ops: seq<Op>)
    requires Sane(manifest, s) && forall k | 0 <= k < |ops| :: Wanted(manifest, ops[k])
    ensures Sane(manifest, Execute(s, ops))
  {
    if ops != [] {
      ExecuteKeepsSane(manifest, s, ops[..|ops| - 1]);
      StepKeepsSane(manifest, Execute(s, ops[..|ops| - 1]), ops[|ops| - 1]);
    }
  }

  lemma {:induction false} CardOpsWanted(manifest: seq<DashboardConfig>, i: nat, n: nat)
    requires i < |manifest| && n <= |manifest[i].cards|
    ensures forall k | 0 <= k < |CardOps(manifest[i], n)| :: Wanted(manifest, CardOps(manifest[i], n)[k])
  {
    if n > 0 {
      CardOpsWanted(manifest, i, n - 1);
      assert ListedAt(manifest, manifest[i].name, manifest[i].cards[n - 1].name, n - 1);
    }
  }

  lemma {:induction false} CardOpsHave(c: DashboardConfig, n: nat, p: nat)
    requires p < n <= |c.cards|
    ensures Attach(c.name, c.cards[p].name, p) in CardOps(c, n)
  {
    if p < n - 1 { CardOpsHave(c, n - 1, p); }
  }

  lemma DashboardOpsOf(manifest: seq<DashboardConfig>, i: nat)
    requires i < |manifest|
    ensures var c, ops := manifest[i], DashboardOps(manifest[i]);
            && (forall k | 0 <= k < |ops| :: Wanted(manifest, ops[k]))
            && EnsureDashboard(c.name, c.description) in ops
            && (forall p | 0 <= p < |c.cards| :: Attach(c.name, c.cards[p].name, p) in ops)
  {
    CardOpsWanted(manifest, i, |manifest[i].cards|);
    assert IsDescribed(manifest, manifest[i].name, manifest[i].description);
    forall p | 0 <= p < |manifest[i].cards|
      ensures Attach(manifest[i].name, manifest[i].cards[p].name, p) in DashboardOps(manifest[i])
    {
      CardOpsHave(manifest[i], |manifest[i].cards|, p);
    }
  }

  lemma {:induction false} ProgramOps(manifest: seq<DashboardConfig>, n: nat)
    requires n <= |manifest|
    ensures var ops := Program(manifest[..n]);
            && (forall k | 0 <= k < |ops| :: Wanted(manifest, ops[k]))
            && (forall i | 0 <= i < n :: Includes(ops, DashboardOps(manifest[i])))
  {
    if n > 0 {
      ProgramOps(manifest, n - 1);
      assert manifest[..n][..n - 1] == manifest[..n - 1];
      DashboardOpsOf(manifest, n - 1);
      forall i | 0 <= i < n ensures Includes(Program(manifest[..n]), DashboardOps(manifest[i])) {
        if i < n - 1 { assert Includes(Program(manifest[..n - 1]), DashboardOps(manifest[i])); }
      }
    }
  }

  ghost predicate Includes(ops: seq<Op>, some: seq<Op>) { forall op | op in some :: op in ops }

  predicate Disjoint(a: DashCard, b: DashCard) {
    a.row + a.sizeY <= b.row || b.row + b.sizeY <= a.row || a.col + a.sizeX <= b.col || b.col + b.sizeX <= a.col
  }

  lemma DistinctPlacesAreDisjoint(a: nat, b: nat, p: nat, q: nat)
    requires p != q
    ensures Disjoint(Placed(a, p), Placed(b, q))
  {
  }

  /** Exactly one dashboard for each name and one card for each card name, as the manifest describes them. */
  ghost predicate OneOfEach(manifest: seq<DashboardConfig>, s: Server) {
    && (forall name :: IsNamed(manifest, name) <==> FindDashboard(s.dashboards, name).Some?)
    && (forall name :: IsListed(manifest, name) <==> FindCard(s.cards, name).Some?)
    && (forall i, j | 0 <= i < j < |s.dashboards| :: s.dashboards[i].name != s.dashboards[j].name)
    && (forall i, j | 0 <= i < j < |s.cards| :: s.cards[i].name != s.cards[j].name)
    && (forall i | 0 <= i < |s.dashboards| :: IsDescribed(manifest, s.dashboards[i].name, s.dashboards[i].description))
    && (forall i | 0 <= i < |s.cards| :: IsConfigured(manifest, s.cards[i]))
  }

  /** A dashboard shows each card that it lists, once, at the place of its listing, and no other; none overlap. */
  ghost predicate ShowsItsCards(manifest: seq<DashboardConfig>, cards: seq<CardConfig>, d: Dashboard) {
    && (forall k | 0 <= k < |cards| ::
          IsAttached(d.dashcards, k) <==> exists p :: ListedAt(manifest, d.name, cards[k].name, p))
    && (forall j | 0 <= j < |d.dashcards| :: RightlyPlaced(manifest, cards, d.name, d.dashcards[j]))
    && (forall j, k | 0 <= j < k < |d.dashcards| ::
          d.dashcards[j].cardId != d.dashcards[k].cardId && Disjoint(d.dashcards[j], d.dashcards[k]))
  }

  lemma SaneIsDisjoint(manifest: seq<DashboardConfig>, s: Server, i: nat, j: nat, k: nat)
    requires DistinctNames(manifest) && Sane(manifest, s) && i < |s.dashboards| && j < k < |s.dashboards[i].dashcards|
    ensures Disjoint(s.dashboards[i].dashcards[j], s.dashboards[i].dashcards[k])
  {
    var d := s.dashboards[i];
    var a, b := d.dashcards[j], d.dashcards[k];
    assert DashboardSane(manifest, s.cards, d);
    assert RightlyPlaced(manifest, s.cards, d.name, a) && RightlyPlaced(manifest, s.cards, d.name, b);
    var p :| ListedAt(manifest, d.name, s.cards[a.cardId].name, p) && a == Placed(a.cardId, p);
    var q :| ListedAt(manifest, d.name, s.cards[b.cardId].name, q) && b == Placed(b.cardId, q);
    assert s.cards[a.cardId].name != s.cards[b.cardId].name by {
      assert a.cardId < b.cardId || b.cardId < a.cardId;
    }
    ListingsDiffer(manifest, d.name, s.cards[a.cardId].name, s.cards[b.cardId].name, p, q);
    DistinctPlacesAreDisjoint(a.cardId, b.cardId, p, q);
  }

  lemma ListingsDiffer(manifest: seq<DashboardConfig>, dashboard: string, x: string, y: string, p: nat, q: nat)
    requires DistinctNames(manifest) && x != y
    requires ListedAt(manifest, dashboard, x, p) && ListedAt(manifest, dashboard, y, q)
    ensures p != q
  {
  }

  ghost predicate HasAll(manifest: seq<DashboardConfig>, s: Server) {
    && (forall name | IsNamed(manifest, name) :: FindDashboard(s.dashboards, name).Some?)
    && (forall d, c, p: nat | ListedAt(manifest, d, c, p) :: Done(s, Attach(d, c, p)))
  }

  lemma {:induction false} DoneInComplete(manifest: seq<DashboardConfig>, s: Server, i: nat, op: Op)
    requires i < |manifest| && op in DashboardOps(manifest[i])
    ensures Done(Execute(s, Program(manifest)), op)
  {
    var ops := Program(manifest);
    ProgramWellOrdered(manifest);
    ExecuteDoesAll(s, ops);
    ProgramOps(manifest, |manifest|);
    assert manifest[..|manifest|] == manifest;
    assert Includes(ops, DashboardOps(manifest[i]));
    var k :| 0 <= k < |ops| && ops[k] == op;
  }

  lemma {:induction false} CompleteHasAll(manifest: seq<DashboardConfig>, s: Server)
    ensures HasAll(manifest, Execute(s, Program(manifest)))
  {
    forall name | IsNamed(manifest, name) ensures FindDashboard(Execute(s, Program(manifest)).dashboards, name).Some? {
      var i :| 0 <= i < |manifest| && manifest[i].name == name;
      DashboardOpsOf(manifest, i);
      DoneInComplete(manifest, s, i, EnsureDashboard(name, manifest[i].description));
    }
    forall d, c, p: nat | ListedAt(manifest, d, c, p) ensures Done(Execute(s, Program(manifest)), Attach(d, c, p)) {
      var i :| 0 <= i < |manifest| && manifest[i].name == d
               && p < |manifest[i].cards| && manifest[i].cards[p].name == c;
      DashboardOpsOf(manifest, i);
      DoneInComplete(manifest, s, i, Attach(d, c, p));
    }
  }

  lemma {:induction false} CompleteIsSane(manifest: seq<DashboardConfig>)
    ensures Sane(manifest, Execute(EmptyServer, Program(manifest)))
  {
    ProgramOps(manifest, |manifest|);
    assert manifest[..|manifest|] == manifest;
    ExecuteKeepsSane(manifest, EmptyServer, Program(manifest));
  }

  /**
    From an empty server, a manifest with distinct dashboard names is provisioned exactly, through any
    number of interrupted runs: one dashboard and one card for each name, each card shown once on every
    dashboard that lists it, and no two cards overlapping.
   */
  lemma {:induction false} ManifestIsProvisioned(manifest: seq<DashboardConfig>, cuts: seq<nat>)
    requires DistinctNames(manifest) && forall i | 0 <= i < |cuts| :: cuts[i] <= |Program(manifest)|
    ensures var s := Execute(Interrupted(EmptyServer, Program(manifest), cuts), Program(manifest));
            && OneOfEach(manifest, s)
            && forall i | 0 <= i < |s.dashboards| :: ShowsItsCards(manifest, s.cards, s.dashboards[i])
  {
    InterruptedRunsConverge(EmptyServer, manifest, cuts);
    CompleteHasAll(manifest, EmptyServer);
    CompleteIsSane(manifest);
    var s := Execute(EmptyServer, Program(manifest));
    SaneHasOneOfEach(manifest, s);
    forall i | 0 <= i < |s.dashboards| ensures ShowsItsCards(manifest, s.cards, s.dashboards[i]) {
      SaneShowsItsCards(manifest, s, i);
    }
  }

  lemma SaneHasOneOfEach(manifest: seq<DashboardConfig>, s: Server)
    requires Sane(manifest, s) && HasAll(manifest, s)
    ensures OneOfEach(manifest, s)
  {
    forall name ensures IsListed(manifest, name) <==> FindCard(s.cards, name).Some? {
      if FindCard(s.cards, name).Some? { ConfiguredIsListed(manifest, s.cards[FindCard(s.cards, name).value]); }
    }
  }

  lemma ConfiguredIsListed(manifest: seq<DashboardConfig>, card: CardConfig)
    requires IsConfigured(manifest, card)
    ensures IsListed(manifest, card.name)
  {
    var i :| 0 <= i < |manifest| && card in manifest[i].cards;
    var p :| 0 <= p < |manifest[i].cards| && manifest[i].cards[p] == card;
    assert ListedAt(manifest, manifest[i].name, card.name, p);
  }

  lemma SaneShowsItsCards(manifest: seq<DashboardConfig>, s: Server, i: nat)
    requires DistinctNames(manifest) && Sane(manifest, s) && HasAll(manifest, s) && i < |s.dashboards|
    ensures ShowsItsCards(manifest, s.cards, s.dashboards[i])
  {
    var d := s.dashboards[i];
    assert DashboardSane(manifest, s.cards, d);
    forall k | 0 <= k < |s.cards|
      ensures IsAttached(d.dashcards, k) <==> exists p :: ListedAt(manifest, d.name, s.cards[k].name, p)
    {
      if IsAttached(d.dashcards, k) {
        var j :| 0 <= j < |d.dashcards| && d.dashcards[j].cardId == k;
        assert RightlyPlaced(manifest, s.cards, d.name, d.dashcards[j]);
      }
      if p :| ListedAt(manifest, d.name, s.cards[k].name, p) {
        assert Done(s, Attach(d.name, s.cards[k].name, p));
        FoundFirst(s.dashboards, d.name, i);
        FoundFirstCard(s.cards, s.cards[k].name, k);
      }
    }
    forall j, k | 0 <= j < k < |d.dashcards| ensures Disjoint(d.dashcards[j], d.dashcards[k]) {
      SaneIsDisjoint(manifest, s, i, j, k);
    }
  }

  // ---------------------------------------------------------------- the client

  class Metabase {
    var dashboards: seq<Dashboard>
    var cards: seq<CardConfig>

    function View(): Server
      reads this
    {
      Server(dashboards, cards)
    }

    constructor ()
      ensures View() == EmptyServer
    {
      dashboards, cards := [], [];
    }

    method DashboardId(name: string, description: string) returns (id: nat)
      modifies this
      ensures View() == Step(old(View()), EnsureDashboard(name, description))
      ensures Some(id) == FindDashboard(dashboards, name)
    {
      id := 0;
      while id < |dashboards|
        invariant id <= |dashboards| && View() == old(View())
        invariant forall i | 0 <= i < id :: dashboards[i].name != name
      {
        if dashboards[id].name == name {
          return;
        }
        id := id + 1;
      }
      dashboards := dashboards + [Dashboard(name, description, [])];
    }

    method CardId(config: CardConfig) returns (id: nat)
      modifies this
      ensures View() == Step(old(View()), EnsureCard(config))
      ensures Some(id) == FindCard(cards, config.name)
    {
      id := 0;
      while id < |cards|
        invariant id <= |cards| && View() == old(View())
        invariant forall i | 0 <= i < id :: cards[i].name != config.name
      {
        if cards[id].name == config.name {
          return;
        }
        id := id + 1;
      }
      cards := cards + [config];
    }

    /** Fetches the dashboard, and puts its cards back with one more unless the card is there already. */
    method AttachCard(dashboard: nat, card: nat, position: nat)
      requires dashboard < |dashboards|
      modifies this
      ensures View() == AttachTo(old(View()), dashboard, card, position)
    {
      var d := dashboards[dashboard];
      var attached := set j | 0 <= j < |d.dashcards| :: d.dashcards[j].cardId;
      if card in attached {
        return;
      }
      var placed := d.dashcards + [DashCard(card, position / 2 * 4, position % 2 * 9, 9, 4)];
      dashboards := dashboards[dashboard := d.(dashcards := placed)];
    }

    // The card at one position of a dashboard.
    method ProvisionCard(id: nat, c: DashboardConfig, p: nat)
      requires p < |c.cards| && Some(id) == FindDashboard(dashboards, c.name)
      modifies this
      ensures View() == Step(Step(old(View()), EnsureCard(c.cards[p])), Attach(c.name, c.cards[p].name, p))
      ensures Some(id) == FindDashboard(dashboards, c.name)
    {
      FindStays(View(), EnsureCard(c.cards[p]), c.name);
      var card := CardId(c.cards[p]);
      FindStays(View(), Attach(c.name, c.cards[p].name, p), c.name);
      AttachCard(id, card, p);
    }

    // The inner loop, over the cards of one dashboard.
    method ProvisionCards(id: nat, c: DashboardConfig)
      requires Some(id) == FindDashboard(dashboards, c.name)
      modifies this
      ensures View() == Execute(old(View()), CardOps(c, |c.cards|))
    {
      ghost var start := View();
      CardsBegin(start, c);
      for p := 0 to |c.cards|
        invariant View() == Execute(start, CardOps(c, p))
        invariant Some(id) == FindDashboard(dashboards, c.name)
      {
        ghost var before := View();
        ProvisionCard(id, c, p);
        CardsContinue(start, c, p, before, View());
      }
    }

    // One pass of the main loop.
    method ProvisionDashboard(c: DashboardConfig)
      modifies this
      ensures View() == Execute(old(View()), DashboardOps(c))
    {
      DashboardIsItsCards(View(), c);
      var id := DashboardId(c.name, c.description);
      ProvisionCards(id, c);
    }

    /** The main loop over the manifest. */
    method Provision(manifest: seq<DashboardConfig>)
      modifies this
      ensures View() == Execute(old(View()), Program(manifest))
    {
      assert manifest[..|manifest|] == manifest;
      for i := 0 to |manifest|
        invariant View() == Execute(old(View()), Program(manifest[..i]))
      {
        assert manifest[..i + 1][..i] == manifest[..i];
        ExecuteAppend(old(View()), Program(manifest[..i]), DashboardOps(manifest[i]));
        ProvisionDashboard(manifest[i]);
      }
    }
  }

  lemma {:induction false} CardsBegin(s: Server, c: DashboardConfig)
    ensures Execute(s, CardOps(c, 0)) == s
  {
  }

  lemma CardsContinue(s: Server, c: DashboardConfig, p: nat, before: Server, after: Server)
    requires p < |c.cards| && before == Execute(s, CardOps(c, p))
    requires after == Step(Step(before, EnsureCard(c.cards[p])), Attach(c.name, c.cards[p].name, p))
    ensures after == Execute(s, CardOps(c, p + 1))
  {
    var a, b := EnsureCard(c.cards[p]), Attach(c.name, c.cards[p].name, p);
    TwoOps(s, CardOps(c, p), a, b);
    assert CardOps(c, p + 1) == CardOps(c, p) + [a, b];
  }

  lemma {:induction false} DashboardIsItsCards(s: Server, c: DashboardConfig)
    ensures Execute(s, DashboardOps(c)) ==
            Execute(Step(s, EnsureDashboard(c.name, c.description)), CardOps(c, |c.cards|))
  {
    ExecuteAppend(s, [EnsureDashboard(c.name, c.description)], CardOps(c, |c.cards|));
    OneOp(s, EnsureDashboard(c.name, c.description));
  }

  lemma {:induction false} OneOp(s: Server, op: Op)
    ensures Execute(s, [op]) == Step(s, op)
  {
  }

  lemma {:induction false} TwoOps(s: Server, ops: seq<Op>, a: Op, b: Op)
    ensures Execute(s, ops + [a, b]) == Step(Step(Execute(s, ops), a), b)
  {
    assert (ops + [a, b])[..|ops| + 1] == ops + [a];
    assert (ops + [a])[..|ops|] == ops;
  }
}
