/** Settings of the public demo: numbers read from the environment, clamped before use. */
module DemoConfig {
  import opened Options

  // What converting a text to a number can give in JavaScript.
  datatype JsNumber = NaN | NegInfinity | PosInfinity | Finite(value: real)

  /** The nearest whole number, the greater one of two. */
  function RoundHalfUp(x: real): (r: int)
    ensures r as real - 0.5 <= x < r as real + 0.5
  {
    (x + 0.5).Floor
  }

  function Min(a: int, b: int): int { if a <= b then a else b }

  function Max(a: int, b: int): int { if a <= b then b else a }

  /** An unset or non-finite setting gives the fallback; any other is rounded, then clamped. */
  function BoundedInteger(setting: Option<JsNumber>, fallback: int, minimum: int, maximum: int): (r: int)
    ensures minimum <= fallback <= maximum ==> minimum <= r <= maximum
    ensures setting.Some? && setting.value.Finite? && minimum <= RoundHalfUp(setting.value.value) <= maximum ==>
              r == RoundHalfUp(setting.value.value)
    ensures setting.Some? && setting.value.Finite? && minimum <= maximum ==>
              && (RoundHalfUp(setting.value.value) < minimum ==> r == minimum)
              && (maximum < RoundHalfUp(setting.value.value) ==> r == maximum)
    ensures (setting.None? || !setting.value.Finite?) && minimum <= fallback <= maximum ==> r == fallback
  {
    var candidate := if setting.None? then Finite(fallback as real) else setting.value;
    if candidate.Finite? then Min(Max(RoundHalfUp(candidate.value), minimum), maximum) else fallback
  }

  datatype Environment = Environment(
    eventInterval: Option<JsNumber>,
    maxRows: Option<JsNumber>,
    retention: Option<JsNumber>,
    writeGuard: Option<JsNumber>,
    seedCount: Option<JsNumber>)

  datatype Config = Config(eventIntervalMs: int, maxEventRows: int, retentionDays: int, writeGuardBytes: int)

  function Load(env: Environment): Config {
    Config(
      BoundedInteger(env.eventInterval, 60_000, 60_000, 300_000),
      BoundedInteger(env.maxRows, 50_000, 5_000, 100_000),
      BoundedInteger(env.retention, 35, 30, 45),
      BoundedInteger(env.writeGuard, 200_000_000, 100_000_000, 400_000_000))
  }

  /** With nothing set the demo runs on its defaults; settings far out of range end at their bounds. */
  lemma LoadExactly(env: Environment, low: real, high: real)
    requires low < 30.0 && 400_000_000.0 < high
    ensures env == Environment(None, None, None, None, None) ==> Load(env) == Config(60_000, 50_000, 35, 200_000_000)
    ensures var x := Some(Finite(low)); Load(Environment(x, x, x, x, x)) == Config(60_000, 5_000, 30, 100_000_000)
    ensures var x := Some(Finite(high)); Load(Environment(x, x, x, x, x)) == Config(300_000, 100_000, 45, 400_000_000)
  {
  }

  const SEED_CAP := 5_000

  /** min(Number(SEED_EVENT_COUNT ?? 1500), 5000), where NaN stays NaN. */
  function SeedTarget(setting: Option<JsNumber>): JsNumber {
    match if setting.None? then Finite(1_500.0) else setting.value
    case NaN => NaN
    case NegInfinity => NegInfinity
    case PosInfinity => Finite(SEED_CAP as real)
    case Finite(x) => if x <= SEED_CAP as real then Finite(x) else Finite(SEED_CAP as real)
  }

  /** How many events seeding creates: none when the count already reaches the target, and an array length otherwise. */
  function MissingEvents(count: nat, setting: Option<JsNumber>): nat {
    match SeedTarget(setting)
    case NaN => 0
    case NegInfinity => 0
    case PosInfinity => 0
    case Finite(target) => if count as real >= target then 0 else (target - count as real).Floor
  }

  /** The number of rows that seeding aims at, as a whole number. */
  function SeedGoal(setting: Option<JsNumber>): nat {
    match SeedTarget(setting)
    case Finite(target) => if target < 0.0 then 0 else target.Floor
    case _ => 0
  }

  /** The goal of seeding, setting by setting: 1500 by default, whole events, between none and five thousand. */
  lemma SeedGoalExactly(setting: Option<JsNumber>)
    ensures setting.None? ==> SeedGoal(setting) == 1_500
    ensures setting.Some? && setting.value.Finite? ==>
              var x := setting.value.value;
              SeedGoal(setting) == if x < 0.0 then 0 else if 5_000.0 < x then 5_000 else x.Floor
    ensures setting == Some(PosInfinity) ==> SeedGoal(setting) == 5_000
    ensures setting == Some(NaN) || setting == Some(NegInfinity) ==> SeedGoal(setting) == 0
  {
  }

  /** Seeding tops the table up to its goal, and the goal is within the cap on seeding. */
  lemma SeedingTopsUpTo(setting: Option<JsNumber>, count: nat)
    ensures count + MissingEvents(count, setting) == Max(count, SeedGoal(setting))
    ensures MissingEvents(count, setting) <= SeedGoal(setting) <= SEED_CAP
  {
  }

  /**
    Every configuration caps the rows no lower than the seed cap, and keeps at least the thirty days that seeding
    spans.
   */
  lemma SeedingTopsUp(env: Environment, count: nat)
    ensures count + MissingEvents(count, env.seedCount) == Max(count, SeedGoal(env.seedCount))
    ensures SeedGoal(env.seedCount) <= SEED_CAP <= Load(env).maxEventRows
    ensures 30 <= Load(env).retentionDays <= 45 && 60_000 <= Load(env).eventIntervalMs <= 300_000
    ensures Load(env).maxEventRows <= 100_000 && 100_000_000 <= Load(env).writeGuardBytes <= 400_000_000
  {
  }
}
