/** The transfer worker's concurrency controller: safe at every tick, decreases spaced by the
    cooldown, recovery and back-off at guaranteed speeds. */
module ConcurrencyController {
  const AGGRESSIVE_FACTOR: real := 0.4

  datatype Config = Config(
    minWorkers: int, maxWorkers: int, partConcurrency: int, increaseStep: int, decreaseFactor: real, cooldown: real,
    maxErrorRate: real, maxLatency: real, maxPoolUse: real)

  datatype Metrics = Metrics(errorRate: real, latency: real, poolUse: real)

  datatype Level = Level(workers: int, parts: int, lastDecrease: real)

  datatype Tick = Tick(metrics: Metrics, now: real)

  ghost predicate Sane(c: Config) {
    && 1 <= c.minWorkers <= c.maxWorkers && 1 <= c.partConcurrency && 1 <= c.increaseStep
    && 0.0 < c.decreaseFactor <= 1.0 && c.cooldown >= 0.0
  }

  ghost predicate Within(c: Config, l: Level) {
    c.minWorkers <= l.workers <= c.maxWorkers && 1 <= l.parts <= c.partConcurrency
  }

  function Triggers(c: Config, m: Metrics): nat {
    (if m.errorRate > c.maxErrorRate then 1 else 0) + (if m.latency > c.maxLatency then 1 else 0)
    + (if m.poolUse > c.maxPoolUse then 1 else 0)
  }

  function AtLeast(x: int, bound: int): int {
    if x < bound then bound else x
  }

  function AtMost(x: int, bound: int): int {
    if x > bound then bound else x
  }

  function Factor(c: Config, triggers: nat): real {
    if triggers >= 2 then AGGRESSIVE_FACTOR else c.decreaseFactor
  }

  function Lowered(c: Config, l: Level, triggers: nat, now: real): Level {
    var f := Factor(c, triggers);
    var workers := AtLeast((l.workers as real * f).Floor, c.minWorkers);
    if workers == l.workers then l
    else Level(workers, AtLeast((c.partConcurrency as real * f).Floor, 1), now)
  }

  function Step(c: Config, l: Level, now: real): int {
    if now - l.lastDecrease < c.cooldown then 1
    else if l.workers < c.maxWorkers * 2 / 3 then c.increaseStep * 2
    else c.increaseStep
  }

  function Raised(c: Config, l: Level, now: real): Level
    requires c.maxWorkers != 0
  {
    if l.workers >= c.maxWorkers then l
    else
      var workers := AtMost(l.workers + Step(c, l, now), c.maxWorkers);
      if workers == l.workers then l
      else l.(workers := workers,
              parts := AtLeast((c.partConcurrency as real * (workers as real / c.maxWorkers as real) + 0.5).Floor, 1))
  }

  function Adjusted(c: Config, l: Level, t: Tick): Level
    requires c.maxWorkers != 0
  {
    var triggers := Triggers(c, t.metrics);
    if triggers == 0 then Raised(c, l, t.now)
    else if t.now - l.lastDecrease < c.cooldown then l
    else Lowered(c, l, triggers, t.now)
  }

  ghost predicate Healthy(c: Config, m: Metrics) {
    m.errorRate <= c.maxErrorRate && m.latency <= c.maxLatency && m.poolUse <= c.maxPoolUse
  }

  ghost predicate SeveralExceed(c: Config, m: Metrics) {
    var errors, slow, full := m.errorRate > c.maxErrorRate, m.latency > c.maxLatency, m.poolUse > c.maxPoolUse;
    (errors && slow) || (errors && full) || (slow && full)
  }

  /** The workers scaled down by `f`, to no less than the minimum, and the parts of a file with them. */
  ghost predicate ScaledBy(c: Config, l: Level, f: real, now: real, l': Level) {
    var scaled := (l.workers as real * f).Floor;
    var parts := (c.partConcurrency as real * f).Floor;
    && l'.workers == (if scaled < c.minWorkers then c.minWorkers else scaled)
    && (l'.workers == l.workers ==> l' == l)
    && (l'.workers != l.workers ==> l'.parts == (if parts < 1 then 1 else parts) && l'.lastDecrease == now)
  }

  /** `step` workers more, up to the maximum, and the parts of a file in proportion. */
  ghost predicate GrownBy(c: Config, l: Level, step: int, l': Level)
    requires c.maxWorkers > 0
  {
    var part := (c.partConcurrency as real * (l'.workers as real / c.maxWorkers as real) + 0.5).Floor;
    && l'.workers == (if l.workers + step > c.maxWorkers then c.maxWorkers else l.workers + step)
    && l'.lastDecrease == l.lastDecrease
    && (l'.workers == l.workers ==> l' == l)
    && (l'.workers != l.workers ==> l'.parts == if part < 1 then 1 else part)
  }

  /** What one tick does. With any metric over its limit, once the cooldown is over, the workers are scaled
      down, by 0.4 when several metrics exceed and by the configured factor otherwise; within the cooldown
      nothing changes. With none over its limit they grow up to the maximum, by one within the cooldown and
      faster below two thirds of the maximum. */
  ghost predicate Ticked(c: Config, l: Level, t: Tick, l': Level)
    requires c.maxWorkers > 0
  {
    var cooling := t.now - l.lastDecrease < c.cooldown;
    if !Healthy(c, t.metrics) then
      if cooling then l' == l
      else ScaledBy(c, l, if SeveralExceed(c, t.metrics) then 0.4 else c.decreaseFactor, t.now, l')
    else if l.workers >= c.maxWorkers then l' == l
    else if cooling then GrownBy(c, l, 1, l')
    else GrownBy(c, l, if l.workers < c.maxWorkers * 2 / 3 then 2 * c.increaseStep else c.increaseStep, l')
  }

  lemma LoweredIs(c: Config, l: Level, triggers: nat, now: real)
    ensures ScaledBy(c, l, Factor(c, triggers), now, Lowered(c, l, triggers, now))
  {
    hide Factor;
  }

  lemma RaisedIs(c: Config, l: Level, now: real)
    requires c.maxWorkers > 0 && l.workers < c.maxWorkers
    ensures GrownBy(c, l, Step(c, l, now), Raised(c, l, now))
  {
    hide Step;
  }

  lemma AdjustedIs(c: Config, l: Level, t: Tick)
    requires c.maxWorkers > 0
    ensures Ticked(c, l, t, Adjusted(c, l, t))
  {
    LoweredIs(c, l, Triggers(c, t.metrics), t.now);
    if l.workers < c.maxWorkers {
      RaisedIs(c, l, t.now);
    }
    hide Lowered, ScaledBy, GrownBy;
    assert l.workers < c.maxWorkers || Raised(c, l, t.now) == l;
    hide Raised;
  }

  class Controller {
    const config: Config
    var effectiveWorkers: int
    var effectiveParts: int
    var lastDecrease: real

    ghost predicate Valid()
      reads this
    {
      Sane(config) && Within(config, Current())
    }

    ghost function Current(): Level
      reads this
    {
      Level(effectiveWorkers, effectiveParts, lastDecrease)
    }

    constructor (config: Config)
      requires Sane(config)
      ensures Valid() && this.config == config
      ensures Current() == Level(config.maxWorkers, config.partConcurrency, 0.0)
    {
      this.config := config;
      effectiveWorkers, effectiveParts, lastDecrease := config.maxWorkers, config.partConcurrency, 0.0;
    }

    /** `adjustConcurrency` */
    method Adjust(m: Metrics, now: real)
      requires Valid()
      modifies this
      ensures Valid() && Current() == Adjusted(config, old(Current()), Tick(m, now))
      ensures Ticked(config, old(Current()), Tick(m, now), Current())
    {
      AdjustedWithin(config, Current(), Tick(m, now));
      AdjustedIs(config, Current(), Tick(m, now));
      hide Sane, Within, Ticked;
      var triggers := Count(config, m);
      var l := Level(effectiveWorkers, effectiveParts, lastDecrease);
      if triggers > 0 {
        if now - lastDecrease < config.cooldown {
          return;
        }
        l := Lower(config, l, triggers, now);
      } else if effectiveWorkers < config.maxWorkers {
        l := Raise(config, l, now);
      }
      effectiveWorkers, effectiveParts, lastDecrease := l.workers, l.parts, l.lastDecrease;
    }
  }

  method Count(c: Config, m: Metrics) returns (triggers: nat)
    ensures triggers == Triggers(c, m)
  {
    triggers := 0;
    if m.errorRate > c.maxErrorRate {
      triggers := triggers + 1;
    }
    if m.latency > c.maxLatency {
      triggers := triggers + 1;
    }
    if m.poolUse > c.maxPoolUse {
      triggers := triggers + 1;
    }
  }

  method Lower(c: Config, l: Level, triggers: nat, now: real) returns (r: Level)
    ensures r == Lowered(c, l, triggers, now)
  {
    r := l;
    var factor := c.decreaseFactor;
    if triggers >= 2 {
      factor := AGGRESSIVE_FACTOR;
    }
    var newEffective := (l.workers as real * factor).Floor;
    if newEffective < c.minWorkers {
      newEffective := c.minWorkers;
    }
    if newEffective != l.workers {
      var newParts := (c.partConcurrency as real * factor).Floor;
      if newParts < 1 {
        newParts := 1;
      }
      r := Level(newEffective, newParts, now);
    }
  }

  method Raise(c: Config, l: Level, now: real) returns (r: Level)
    requires 0 < c.maxWorkers && l.workers < c.maxWorkers
    ensures r == Raised(c, l, now)
  {
    r := l;
    var step := c.increaseStep;
    if now - l.lastDecrease < c.cooldown {
      step := 1;
    } else if l.workers < c.maxWorkers * 2 / 3 {
      step := c.increaseStep * 2;
    }
    var newEffective := l.workers + step;
    if newEffective > c.maxWorkers {
      newEffective := c.maxWorkers;
    }
    if newEffective != l.workers {
      var newParts := (c.partConcurrency as real * (newEffective as real / c.maxWorkers as real) + 0.5).Floor;
      if newParts < 1 {
        newParts := 1;
      }
      r := Level(newEffective, newParts, l.lastDecrease);
    }
  }

  // ---------------------------------------------------------------- bounds

  lemma ScaledDown(x: int, f: real)
    requires x >= 0 && 0.0 <= f <= 1.0
    ensures 0 <= (x as real * f).Floor <= x
    ensures f < 1.0 && x >= 1 ==> (x as real * f).Floor <= x - 1
  {
    Product(x as real, f);
  }

  lemma Product(x: real, f: real)
    requires x >= 0.0 && 0.0 <= f <= 1.0
    ensures 0.0 <= x * f <= x
    ensures f < 1.0 && x > 0.0 ==> x * f < x
  {
  }

  lemma Share(part: int, workers: int, maxWorkers: int)
    requires part >= 1 && 0 <= workers <= maxWorkers && maxWorkers >= 1
    ensures 0 <= (part as real * (workers as real / maxWorkers as real) + 0.5).Floor <= part
  {
    var q := workers as real / maxWorkers as real;
    assert 0.0 <= q <= 1.0 by {
      Quotient(workers as real, maxWorkers as real);
    }
    Product(part as real, q);
  }

  lemma Quotient(a: real, b: real)
    requires 0.0 <= a <= b && b > 0.0
    ensures 0.0 <= a / b <= 1.0
  {
  }

  lemma AdjustedWithin(c: Config, l: Level, t: Tick)
    requires Sane(c) && Within(c, l)
    ensures Within(c, Adjusted(c, l, t))
  {
    LoweredWithin(c, l, Triggers(c, t.metrics), t.now);
    RaisedWithin(c, l, t.now);
    hide Lowered, Raised, Triggers, Within, Sane;
  }

  lemma LoweredWithin(c: Config, l: Level, triggers: nat, now: real)
    requires Sane(c) && Within(c, l)
    ensures Within(c, Lowered(c, l, triggers, now))
  {
    var f := Factor(c, triggers);
    ScaledDown(l.workers, f);
    ScaledDown(c.partConcurrency, f);
    hide Factor;
  }

  lemma RaisedWithin(c: Config, l: Level, now: real)
    requires Sane(c) && Within(c, l)
    ensures Within(c, Raised(c, l, now))
  {
    assert Step(c, l, now) >= 1;
    Share(c.partConcurrency, AtMost(l.workers + Step(c, l, now), c.maxWorkers), c.maxWorkers);
    hide Step;
  }

  // ---------------------------------------------------------------- runs

  function After(c: Config, l: Level, ticks: seq<Tick>): Level
    requires c.maxWorkers != 0
  {
    if ticks == [] then l else Adjusted(c, After(c, l, ticks[..|ticks| - 1]), ticks[|ticks| - 1])
  }

  lemma {:induction false} RunWithin(c: Config, l: Level, ticks: seq<Tick>)
    requires Sane(c) && Within(c, l)
    ensures Within(c, After(c, l, ticks))
  {
    if ticks != [] {
      RunWithin(c, l, ticks[..|ticks| - 1]);
      AdjustedWithin(c, After(c, l, ticks[..|ticks| - 1]), ticks[|ticks| - 1]);
    }
  }

  /** Tick `i` lowered the number of workers. */
  ghost predicate Decreases(c: Config, l: Level, ticks: seq<Tick>, i: nat)
    requires c.maxWorkers != 0 && i < |ticks|
  {
    After(c, l, ticks[..i + 1]).workers < After(c, l, ticks[..i]).workers
  }

  lemma DecreaseStep(c: Config, l: Level, t: Tick)
    requires Sane(c) && Within(c, l)
    ensures Adjusted(c, l, t).lastDecrease >= l.lastDecrease
    ensures Adjusted(c, l, t).workers < l.workers ==>
              t.now >= l.lastDecrease + c.cooldown && Adjusted(c, l, t).lastDecrease == t.now
  {
  }

  lemma {:induction false} LastDecreaseGrows(c: Config, l: Level, ticks: seq<Tick>, i: nat, j: nat)
    requires Sane(c) && Within(c, l) && i <= j <= |ticks|
    ensures After(c, l, ticks[..i]).lastDecrease <= After(c, l, ticks[..j]).lastDecrease
    decreases j
  {
    if i < j {
      LastDecreaseGrows(c, l, ticks, i, j - 1);
      RunWithin(c, l, ticks[..j - 1]);
      assert ticks[..j][..j - 1] == ticks[..j - 1];
      DecreaseStep(c, After(c, l, ticks[..j - 1]), ticks[j - 1]);
    }
  }

  /** In every run two decreases are at least the cooldown apart. */
  lemma DecreasesSpaced(c: Config, l: Level, ticks: seq<Tick>, i: nat, j: nat)
    requires Sane(c) && Within(c, l) && i < j < |ticks|
    requires Decreases(c, l, ticks, i) && Decreases(c, l, ticks, j)
    ensures ticks[j].now >= ticks[i].now + c.cooldown
  {
    RunWithin(c, l, ticks[..i]);
    RunWithin(c, l, ticks[..j]);
    assert ticks[..i + 1][..i] == ticks[..i] && ticks[..j + 1][..j] == ticks[..j];
    DecreaseStep(c, After(c, l, ticks[..i]), ticks[i]);
    LastDecreaseGrows(c, l, ticks, i + 1, j);
    DecreaseStep(c, After(c, l, ticks[..j]), ticks[j]);
  }

  /** `k` healthy ticks give back at least `k` workers, up to the maximum. */
  lemma {:induction false} Recovers(c: Config, l: Level, ticks: seq<Tick>)
    requires Sane(c) && Within(c, l)
    requires forall i :: 0 <= i < |ticks| ==> Healthy(c, ticks[i].metrics)
    ensures After(c, l, ticks).workers >= AtMost(l.workers + |ticks|, c.maxWorkers)
  {
    if ticks != [] {
      var k := |ticks| - 1;
      Recovers(c, l, ticks[..k]);
      RunWithin(c, l, ticks[..k]);
      assert Healthy(c, ticks[k].metrics);
    }
  }

  /** Every tick sees some metric over its limit, after the cooldown. */
  ghost predicate Overloaded(c: Config, l: Level, ticks: seq<Tick>)
    requires c.maxWorkers != 0
  {
    forall i :: 0 <= i < |ticks| ==>
      !Healthy(c, ticks[i].metrics) && ticks[i].now - After(c, l, ticks[..i]).lastDecrease >= c.cooldown
  }

  /** `x` scaled by `f`, `n` times over. */
  function Scaled(x: real, f: real, n: nat): real {
    if n == 0 then x else Scaled(x, f, n - 1) * f
  }

  function Slower(c: Config): real {
    if c.decreaseFactor < AGGRESSIVE_FACTOR then AGGRESSIVE_FACTOR else c.decreaseFactor
  }

  lemma OverloadedTick(c: Config, l: Level, t: Tick, x: real, k: nat)
    requires Sane(c) && c.decreaseFactor < 1.0 && Within(c, l)
    requires !Healthy(c, t.metrics) && t.now - l.lastDecrease >= c.cooldown
    requires l.workers as real <= Scaled(x, Slower(c), k) || l.workers == c.minWorkers
    ensures var l' := Adjusted(c, l, t);
            && (l'.workers as real <= Scaled(x, Slower(c), k + 1) || l'.workers == c.minWorkers)
            && (l'.workers <= l.workers - 1 || l'.workers == c.minWorkers)
  {
    OverloadedIs(c, l, t);
    var f := if SeveralExceed(c, t.metrics) then 0.4 else c.decreaseFactor;
    assert 0.0 <= f <= Slower(c) && f < 1.0;
    ScaledOnce(l.workers, f, Slower(c), x, k);
    hide Adjusted, Healthy, SeveralExceed, Scaled, Slower, PartOf;
  }

  ghost function PartOf(x: int, f: real): int {
    (x as real * f).Floor
  }

  lemma OverloadedIs(c: Config, l: Level, t: Tick)
    requires c.maxWorkers > 0 && !Healthy(c, t.metrics) && t.now - l.lastDecrease >= c.cooldown
    ensures Adjusted(c, l, t).workers
            == AtLeast(PartOf(l.workers, if SeveralExceed(c, t.metrics) then 0.4 else c.decreaseFactor), c.minWorkers)
  {
    AdjustedIs(c, l, t);
    hide Adjusted, Healthy, SeveralExceed;
  }

  lemma ScaledOnce(w: int, f: real, g: real, x: real, k: nat)
    requires w >= 1 && 0.0 <= f <= g && f < 1.0
    ensures PartOf(w, f) <= w - 1
    ensures w as real <= Scaled(x, g, k) ==> PartOf(w, f) as real <= Scaled(x, g, k + 1)
  {
    ScaledDown(w, f);
    if w as real <= Scaled(x, g, k) {
      Monotone(w as real, Scaled(x, g, k), f, g);
    }
  }

  lemma Monotone(a: real, b: real, f: real, g: real)
    requires 0.0 <= a <= b && 0.0 <= f <= g
    ensures a * f <= b * g
  {
    assert a * f <= b * f;
    assert b * f <= b * g;
  }

  lemma OverloadedPrefix(c: Config, l: Level, ticks: seq<Tick>, k: nat)
    requires c.maxWorkers != 0 && k <= |ticks| && Overloaded(c, l, ticks)
    ensures Overloaded(c, l, ticks[..k])
  {
    hide Adjusted, Healthy, After;
    var front := ticks[..k];
    forall i | 0 <= i < k
      ensures !Healthy(c, front[i].metrics) && front[i].now - After(c, l, front[..i]).lastDecrease >= c.cooldown
    {
      assert front[..i] == ticks[..i] && front[i] == ticks[i];
    }
  }

  /** With a factor below one, overloads that keep coming after the cooldown bring the workers down to
      the minimum: geometrically, and by at least one each, so in finitely many decreases. */
  lemma {:induction false} BacksOff(c: Config, l: Level, ticks: seq<Tick>)
    requires Sane(c) && c.decreaseFactor < 1.0 && Within(c, l) && Overloaded(c, l, ticks)
    ensures var w := After(c, l, ticks).workers;
            && (w as real <= Scaled(l.workers as real, Slower(c), |ticks|) || w == c.minWorkers)
            && w <= AtLeast(l.workers - |ticks|, c.minWorkers)
  {
    if ticks != [] {
      hide Adjusted, Healthy, Slower, Scaled;
      var k := |ticks| - 1;
      var before := After(c, l, ticks[..k]);
      OverloadedPrefix(c, l, ticks, k);
      BacksOff(c, l, ticks[..k]);
      RunWithin(c, l, ticks[..k]);
      assert !Healthy(c, ticks[k].metrics) && ticks[k].now - before.lastDecrease >= c.cooldown;
      hide Overloaded;
      OverloadedTick(c, before, ticks[k], l.workers as real, k);
    }
  }
}
