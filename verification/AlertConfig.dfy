/** The hub's alert thresholds: kept in range by every update, with the cooldown as a 64-bit duration. */
module AlertConfig {

  datatype Config = Config(
    cpuPercent: real,
    memoryPercent: real,
    diskPercent: real,
    cooldownMinutes: int,
    staleMultiplier: real,
    cpuSpikeMinPercent: real,
    memoryPressurePercent: real,
    diskFillingPercent: real,
    containerRestartCount: int)

  function Percent(p: real): real {
    if p <= 0.0 || p > 100.0 then 90.0 else p
  }

  function Positive(x: real, default: real): real {
    if x <= 0.0 then default else x
  }

  function PositiveInt(x: int, default: int): int {
    if x <= 0 then default else x
  }

  function Normalized(c: Config): Config {
    Config(
      Percent(c.cpuPercent),
      Percent(c.memoryPercent),
      Percent(c.diskPercent),
      PositiveInt(c.cooldownMinutes, 10),
      Positive(c.staleMultiplier, 2.0),
      Positive(c.cpuSpikeMinPercent, 50.0),
      Positive(c.memoryPressurePercent, 85.0),
      Positive(c.diskFillingPercent, 85.0),
      PositiveInt(c.containerRestartCount, 3))
  }

  predicate InRange(c: Config) {
    && 0.0 < c.cpuPercent <= 100.0
    && 0.0 < c.memoryPercent <= 100.0
    && 0.0 < c.diskPercent <= 100.0
    && c.cooldownMinutes >= 1
    && c.staleMultiplier > 0.0
    && c.cpuSpikeMinPercent > 0.0
    && c.memoryPressurePercent > 0.0
    && c.diskFillingPercent > 0.0
    && c.containerRestartCount >= 1
  }

  /** Normalizing gives a configuration in range and leaves exactly those in range alone. */
  lemma NormalizedInRange(c: Config)
    ensures InRange(Normalized(c))
    ensures Normalized(c) == c <==> InRange(c)
  {
  }

  /** Each number that is in range is kept, and each other gets its default. */
  ghost predicate Repaired(before: Config, after: Config) {
    && after.cpuPercent == (if 0.0 < before.cpuPercent <= 100.0 then before.cpuPercent else 90.0)
    && after.memoryPercent == (if 0.0 < before.memoryPercent <= 100.0 then before.memoryPercent else 90.0)
    && after.diskPercent == (if 0.0 < before.diskPercent <= 100.0 then before.diskPercent else 90.0)
    && after.cooldownMinutes == (if before.cooldownMinutes >= 1 then before.cooldownMinutes else 10)
    && after.staleMultiplier == (if before.staleMultiplier > 0.0 then before.staleMultiplier else 2.0)
    && after.cpuSpikeMinPercent == (if before.cpuSpikeMinPercent > 0.0 then before.cpuSpikeMinPercent else 50.0)
    && after.memoryPressurePercent
       == (if before.memoryPressurePercent > 0.0 then before.memoryPressurePercent else 85.0)
    && after.diskFillingPercent == (if before.diskFillingPercent > 0.0 then before.diskFillingPercent else 85.0)
    && after.containerRestartCount == (if before.containerRestartCount >= 1 then before.containerRestartCount else 3)
  }

  // ---------- The cooldown as a duration ----------

  /** The value of a signed 64-bit register after an operation whose exact result is x. */
  function Wrapped(x: int): (r: int)
    ensures -0x8000_0000_0000_0000 <= r <= 0x7fff_ffff_ffff_ffff
    ensures -0x8000_0000_0000_0000 <= x <= 0x7fff_ffff_ffff_ffff ==> r == x
    ensures (r - x) % 0x1_0000_0000_0000_0000 == 0
  {
    (x + 0x8000_0000_0000_0000) % 0x1_0000_0000_0000_0000 - 0x8000_0000_0000_0000
  }

  /** Nanoseconds: the minutes, 10 unless positive, times a minute. */
  function Cooldown(minutes: int): int {
    Wrapped(PositiveInt(minutes, 10) * 60_000_000_000)
  }

  /** The cooldown is the configured number of minutes exactly up to 153722867 minutes, about 292 years. */
  lemma CooldownExact(minutes: int)
    requires minutes >= 1
    ensures Cooldown(minutes) == minutes * 60_000_000_000 <==> minutes <= 153722867
  {
  }

  /** Without a positive number of minutes it is ten. */
  lemma CooldownDefault(minutes: int)
    requires minutes <= 0
    ensures Cooldown(minutes) == 600_000_000_000
  {
  }

  lemma CooldownAtLeastAMinute(minutes: int)
    requires minutes <= 153722867
    ensures Cooldown(minutes) >= 60_000_000_000
  {
  }

  /** One minute more overflows, and the cooldown is over before it starts. */
  lemma CooldownOverflows()
    ensures Cooldown(153722868) < 0
  {
  }

  /** ConfigStore: thresholds that can be replaced while the hub runs. */
  class ConfigStore {
    var snap: Config

    ghost predicate Valid()
      reads this
    {
      InRange(snap)
    }

    constructor (initial: Config)
      ensures Valid() && snap == Normalized(initial) && Repaired(initial, snap)
    {
      NormalizedInRange(initial);
      snap := initial;
      new;
      Normalize();
    }

    /** Puts every field that is out of range back to its default. */
    method Normalize()
      modifies this
      ensures snap == Normalized(old(snap))
    {
      var c := snap;
      if c.cpuPercent <= 0.0 || c.cpuPercent > 100.0 {
        c := c.(cpuPercent := 90.0);
      }
      if c.memoryPercent <= 0.0 || c.memoryPercent > 100.0 {
        c := c.(memoryPercent := 90.0);
      }
      if c.diskPercent <= 0.0 || c.diskPercent > 100.0 {
        c := c.(diskPercent := 90.0);
      }
      if c.cooldownMinutes <= 0 {
        c := c.(cooldownMinutes := 10);
      }
      if c.staleMultiplier <= 0.0 {
        c := c.(staleMultiplier := 2.0);
      }
      if c.cpuSpikeMinPercent <= 0.0 {
        c := c.(cpuSpikeMinPercent := 50.0);
      }
      if c.memoryPressurePercent <= 0.0 {
        c := c.(memoryPressurePercent := 85.0);
      }
      if c.diskFillingPercent <= 0.0 {
        c := c.(diskFillingPercent := 85.0);
      }
      if c.containerRestartCount <= 0 {
        c := c.(containerRestartCount := 3);
      }
      snap := c;
    }

    method Update(next: Config) returns (stored: Config)
      modifies this
      ensures Valid() && snap == stored == Normalized(next) && Repaired(next, stored)
    {
      NormalizedInRange(next);
      snap := next;
      Normalize();
      stored := snap;
    }

    method CurrentCooldown() returns (duration: int)
      requires Valid()
      ensures duration == Cooldown(snap.cooldownMinutes)
      ensures snap.cooldownMinutes <= 153722867 ==>
        duration == snap.cooldownMinutes * 60_000_000_000 && duration >= 60_000_000_000
    {
      var m := snap.cooldownMinutes;
      if m <= 0 {
        m := 10;
      }
      CooldownExact(m);
      duration := Wrapped(m * 60_000_000_000);
    }
  }
}
