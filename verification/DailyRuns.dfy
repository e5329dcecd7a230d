/**
  Daily rows over whole histories: once written they stay, and what they say of the day's
  samples depends on how far the hourly runs had come; and what an interrupted first run does.
 */
module DailyRuns {
  import opened Sequences
  import opened Timestamps
  import opened RawSamples
  import opened Tiers
  import opened HistoryStore
  import opened TierRuns
  import opened TwoTier
  import opened FirstRun

  predicate SameRow(a: RollupTable, b: RollupTable, k: Key) {
    (k in a <==> k in b) && (k in a ==> a[k] == b[k])
  }

  function DayMark(w: World): nat {
    Or(w.tiers.dailyMark, 0)
  }

  ghost predicate DailyInv(w: World) {
    && DayMark(w) <= DayOf(w.clock)
    && forall k | k in w.tiers.daily :: DayRows(w.tiers.hourly, k.agent, k.slot) != []
  }

  // ---------- What no step changes any more ----------

  /** Rolled-up hours keep their samples written on time and their rows. */
  ghost predicate HoursFrozen(w: World, w': World) {
    w.base.Some? ==>
      && w'.base == w.base && Mark(w) <= Mark(w')
      && (forall a, h: nat | h < Mark(w) :: Rows(w'.onTime, a, h) == Rows(w.onTime, a, h))
      && (forall k: Key | k.slot < Mark(w) :: SameRow(w.tiers.hourly, w'.tiers.hourly, k))
  }

  /** Days before the daily mark keep their rows. */
  ghost predicate DaysFrozen(w: World, w': World) {
    && DayMark(w) <= DayMark(w')
    && forall k: Key | k.slot < DayMark(w) :: SameRow(w.tiers.daily, w'.tiers.daily, k)
  }

  lemma RunFreezes(w: World, now: Stamp)
    requires Inv(w) && NotAfter(w.clock, now)
    ensures HoursFrozen(w, AfterRun(w, now))
  {
    HoursAdvance(w.clock, now);
    forall k: Key | w.base.Some? && k.slot < Mark(w)
      ensures SameRow(w.tiers.hourly, AfterRun(w, now).tiers.hourly, k)
    {
      RunAt(w, now, k);
    }
  }

  lemma WriteFreezes(w: World, row: Sample)
    requires Inv(w)
    ensures HoursFrozen(w, AfterWrite(w, row))
  {
    var w' := AfterWrite(w, row);
    forall a, h: nat | w.base.Some? && h < Mark(w) ensures Rows(w'.onTime, a, h) == Rows(w.onTime, a, h) {
      if Bucket(row.at) >= Mark(w) {
        UpsertElsewhere(w.onTime, row, a, h);
      }
    }
  }

  lemma CrashFreezes(w: World, now: Stamp, part: RollupTable)
    requires Inv(w)
    ensures HoursFrozen(w, AfterCrash(w, now, part))
  {
    if PartOf(part, DueHours(w.tiers, now)) {
      forall k | k in part ensures w.base.Some? ==> Mark(w) <= k.slot {
        CrashedAhead(w, now, part, k);
      }
    }
  }

  lemma StepFreezesHours(days: nat, w: World, op: Op)
    requires Inv(w)
    ensures HoursFrozen(w, Apply(days, w, op))
  {
    if InTime(w, op) {
      match op
      case Write(row) => WriteFreezes(w, row);
      case HourlyRun(now) => RunFreezes(w, now);
      case HourlyCrash(now, part) => CrashFreezes(w, now, part);
      case Retention(now, later) => RunFreezes(w, now);
      case _ =>
    }
  }

  /** An interrupted or complete daily run writes only days from the mark on, that have hourly rows. */
  lemma DueDaysAhead(s: TierState, now: Stamp, k: Key)
    requires k in DueDays(s, now)
    ensures StartDay(s, now) <= k.slot && DayRows(s.hourly, k.agent, k.slot) != []
  {
    StretchAt(Hours(s.hourly), StartDay(s, now), DayOf(now), k);
  }

  lemma DailyWrites(w: World, now: Stamp, part: RollupTable)
    requires DailyInv(w) && PartOf(part, DueDays(w.tiers, now))
    ensures forall k | k in part :: DayMark(w) <= k.slot
    ensures forall k | k in w.tiers.daily + part :: DayRows(w.tiers.hourly, k.agent, k.slot) != []
  {
    forall k | k in part ensures DayMark(w) <= k.slot && DayRows(w.tiers.hourly, k.agent, k.slot) != [] {
      DueDaysAhead(w.tiers, now, k);
    }
  }

  /** Hourly rows are never removed. */
  lemma HourlyGrows(days: nat, w: World, op: Op)
    ensures w.tiers.hourly.Keys <= Apply(days, w, op).tiers.hourly.Keys
  {
  }

  lemma MoreHours(hourly: RollupTable, more: RollupTable, agent: string, day: nat)
    requires hourly.Keys <= more.Keys && DayRows(hourly, agent, day) != []
    ensures DayRows(more, agent, day) != []
  {
    HourRowsPresent(hourly, agent, 24 * day, 24 * day + 24);
    HourRowsPresent(more, agent, 24 * day, 24 * day + 24);
    var h :| 24 * day <= h < 24 * day + 24 && Key(agent, h) in hourly;
    assert Key(agent, h) in more;
  }

  lemma DayAdvances(now: Stamp, later: Stamp)
    requires NotAfter(now, later)
    ensures DayOf(now) <= DayOf(later)
  {
  }

  lemma StepKeepsDaily(days: nat, w: World, op: Op)
    requires DailyInv(w)
    ensures DailyInv(Apply(days, w, op)) && DaysFrozen(w, Apply(days, w, op))
  {
    if InTime(w, op) {
      match op
      case Write(row) =>
      case DailyRun(now) => DailyRunKeeps(w, now);
      case DailyCrash(now, part) => DailyCrashKeeps(w, now, part);
      case _ => HourlyStepKeepsDaily(days, w, op);
    }
  }

  lemma DailyRunKeeps(w: World, now: Stamp)
    requires DailyInv(w) && NotAfter(w.clock, now)
    ensures var w' := w.(tiers := AfterDaily(w.tiers, now), clock := now); DailyInv(w') && DaysFrozen(w, w')
  {
    DayAdvances(w.clock, now);
    DailyWrites(w, now, DueDays(w.tiers, now));
  }

  lemma DailyCrashKeeps(w: World, now: Stamp, part: RollupTable)
    requires DailyInv(w) && NotAfter(w.clock, now)
    ensures DailyInv(AfterDailyCrash(w, now, part)) && DaysFrozen(w, AfterDailyCrash(w, now, part))
  {
    DayAdvances(w.clock, now);
    if PartOf(part, DueDays(w.tiers, now)) {
      DailyWrites(w, now, part);
    }
  }

  lemma HourlyStepKeepsDaily(days: nat, w: World, op: Op)
    requires DailyInv(w) && InTime(w, op) && (op.HourlyRun? || op.HourlyCrash? || op.Retention?)
    ensures DailyInv(Apply(days, w, op)) && DaysFrozen(w, Apply(days, w, op))
  {
    var w' := Apply(days, w, op);
    HourlyGrows(days, w, op);
    forall k | k in w'.tiers.daily ensures DayRows(w'.tiers.hourly, k.agent, k.slot) != [] {
      MoreHours(w.tiers.hourly, w'.tiers.hourly, k.agent, k.slot);
    }
    DayAdvances(w.clock, w'.clock);
  }

  lemma {:induction false} DailyHistory(days: nat, ops: seq<Op>)
    ensures DailyInv(Exec(days, ops))
  {
    if ops != [] {
      DailyHistory(days, ops[..|ops| - 1]);
      StepKeepsDaily(days, Exec(days, ops[..|ops| - 1]), ops[|ops| - 1]);
    }
  }

  lemma FreezingComposes(a: World, b: World, c: World)
    requires HoursFrozen(a, b) && HoursFrozen(b, c) && DaysFrozen(a, b) && DaysFrozen(b, c)
    ensures HoursFrozen(a, c) && DaysFrozen(a, c)
  {
  }

  /** Whatever comes later, rolled-up hours and days stay as they are. */
  lemma {:induction false} RolledUpStays(days: nat, ops: seq<Op>, more: seq<Op>)
    requires days >= 1 && Brisk(ops + more)
    ensures HoursFrozen(Exec(days, ops), Exec(days, ops + more))
    ensures DaysFrozen(Exec(days, ops), Exec(days, ops + more))
  {
    if more == [] {
      assert ops + more == ops;
    } else {
      var front, op := more[..|more| - 1], more[|more| - 1];
      assert ops + more == (ops + front) + [op];
      assert (ops + more)[..|ops + more| - 1] == ops + front;
      RolledUpStays(days, ops, front);
      HistoryInv(days, ops + front);
      DailyHistory(days, ops + front);
      StepFreezesHours(days, Exec(days, ops + front), op);
      StepKeepsDaily(days, Exec(days, ops + front), op);
      FreezingComposes(Exec(days, ops), Exec(days, ops + front), Exec(days, ops + more));
    }
  }

  // ---------- Days whose hours were complete ----------

  function RowAt(table: RollupTable, k: Key): Option<Rollup> {
    if k in table then Some(table[k]) else None
  }

  /** What a daily row says: too much with strays, nothing without samples, and otherwise the truth. */
  ghost predicate Tells(row: Option<Rollup>, strays: seq<Rollup>, hours: seq<Rollup>, samples: seq<Sample>) {
    if strays != [] then row.Some? && row.value.count > |samples|
    else if samples == [] then row.None?
    else row.Some? && Describes(row.value, hours, samples)
  }

  /** What the daily table says of an agent's day. */
  ghost predicate DayTold(w: World, agent: string, day: nat) {
    Tells(RowAt(w.tiers.daily, Key(agent, day)), Strays(w, agent, day), DayRows(w.tiers.hourly, agent, day),
          DaySamples(w, agent, day))
  }

  lemma {:induction false} SamePages(raw: seq<Sample>, other: seq<Sample>, agent: string, first: nat, end: nat)
    requires forall h: nat | first <= h < end :: Rows(raw, agent, h) == Rows(other, agent, h)
    ensures Pages(raw, agent, first, end) == Pages(other, agent, first, end)
    decreases end
  {
    if first < end {
      var hour := end - 1;
      SamePages(raw, other, agent, first, hour);
      assert Rows(raw, agent, hour) == Rows(other, agent, hour);
    }
  }

  lemma {:induction false} SameHourRows(table: RollupTable, other: RollupTable, agent: string, first: nat, end: nat)
    requires forall k: Key | first <= k.slot < end :: SameRow(table, other, k)
    ensures HourRows(table, agent, first, end) == HourRows(other, agent, first, end)
    decreases end
  {
    if first < end {
      SameHourRows(table, other, agent, first, end - 1);
      assert SameRow(table, other, Key(agent, end - 1));
    }
  }

  lemma SamplesFrozen(w: World, w': World, agent: string, first: nat, end: nat)
    requires HoursFrozen(w, w') && w.base.Some? && end <= Mark(w)
    ensures Window(w'.onTime, agent, first, end) == Window(w.onTime, agent, first, end)
  {
    SamePages(w.onTime, w'.onTime, agent, first, end);
  }

  lemma RowsFrozen(w: World, w': World, agent: string, first: nat, end: nat)
    requires HoursFrozen(w, w') && w.base.Some? && end <= Mark(w)
    ensures HourRows(w'.tiers.hourly, agent, first, end) == HourRows(w.tiers.hourly, agent, first, end)
  {
    SameHourRows(w.tiers.hourly, w'.tiers.hourly, agent, first, end);
  }

  lemma DayFrozen(w: World, w': World, agent: string, day: nat)
    requires HoursFrozen(w, w') && w.base.Some? && 24 * day + 24 <= Mark(w)
    ensures DaySamples(w', agent, day) == DaySamples(w, agent, day)
    ensures Strays(w', agent, day) == Strays(w, agent, day)
    ensures DayRows(w'.tiers.hourly, agent, day) == DayRows(w.tiers.hourly, agent, day)
  {
    SamplesFrozen(w, w', agent, DayFirst(w, day), 24 * day + 24);
    RowsFrozen(w, w', agent, 24 * day, DayFirst(w, day));
    RowsFrozen(w, w', agent, 24 * day, 24 * day + 24);
  }

  /** A day told of stays so. */
  lemma ToldForGood(w: World, w': World, agent: string, day: nat)
    requires HoursFrozen(w, w') && DaysFrozen(w, w') && w.base.Some?
    requires 24 * day + 24 <= Mark(w) && day < DayMark(w) && DayTold(w, agent, day)
    ensures DayTold(w', agent, day)
  {
    DayFrozen(w, w', agent, day);
    assert SameRow(w.tiers.daily, w'.tiers.daily, Key(agent, day));
  }

  lemma NothingToTell(w: World, agent: string, day: nat)
    requires RolledAgree(w) && DailyInv(w) && 24 * day + 24 <= Mark(w)
    requires Strays(w, agent, day) == [] && DaySamples(w, agent, day) == []
    ensures Key(agent, day) !in w.tiers.daily
  {
    DayRowsAre(w, agent, day);
    assert DayRows(w.tiers.hourly, agent, day) == [];
  }

  /** A daily run tells of the days that the hourly runs have completed. */
  lemma RunTells(w: World, now: Stamp, agent: string, day: nat)
    requires RolledAgree(w) && Fitting(w) && DailyInv(w)
    requires StartDay(w.tiers, now) <= day < DayOf(now) && 24 * day + 24 <= Mark(w)
    ensures DayTold(w.(tiers := AfterDaily(w.tiers, now), clock := now), agent, day)
  {
    DailyRunMatches(w, now, agent, day);
    if Strays(w, agent, day) == [] && DaySamples(w, agent, day) == [] {
      NothingToTell(w, agent, day);
    }
  }

  lemma Continued(days: nat, ops: seq<Op>, op: Op)
    ensures Exec(days, ops + [op]) == Apply(days, Exec(days, ops), op)
  {
  }

  lemma BriskParts(ops: seq<Op>, op: Op, more: seq<Op>)
    requires Brisk(ops + [op] + more)
    ensures Brisk(ops) && Brisk(ops + [op])
  {
    var all := ops + [op] + more;
    assert forall i | 0 <= i < |ops| + 1 :: all[i] == (ops + [op])[i];
    assert forall i | 0 <= i < |ops| :: all[i] == ops[i];
  }

  /**
    Over whole histories: a day rolled up by a daily run when its hours were complete has its
    row for good, and at any later time the row describes the day's samples written on time;
    without samples there is none.  Strays, which only a run interrupted before the first
    completed one can leave, make the count too large.
   */
  lemma DailyRowsForGood(days: nat, ops: seq<Op>, now: Stamp, more: seq<Op>, agent: string, day: nat)
    requires days >= 1 && Brisk(ops + [DailyRun(now)] + more)
    requires var w := Exec(days, ops);
      && NotAfter(w.clock, now) && StartDay(w.tiers, now) <= day < DayOf(now)
      && 24 * day + 24 <= Mark(w)
    ensures DayTold(Exec(days, ops + [DailyRun(now)] + more), agent, day)
  {
    var w, run := Exec(days, ops), ops + [DailyRun(now)];
    BriskParts(ops, DailyRun(now), more);
    HistoryInv(days, ops);
    DailyHistory(days, ops);
    RunTells(w, now, agent, day);
    Continued(days, ops, DailyRun(now));
    RolledUpStays(days, run, more);
    ToldForGood(Exec(days, run), Exec(days, run + more), agent, day);
  }

  // ---------- Days rolled up too soon ----------

  function CountAt(table: RollupTable, k: Key): nat {
    if k in table then table[k].count else 0
  }

  function Later(a: nat, b: nat): nat {
    if a < b then b else a
  }

  function Sooner(a: nat, b: nat): nat {
    if a < b then a else b
  }

  /** One hour more, rolled up or not. */
  lemma HourCounted(w: World, agent: string, first: nat, hour: nat)
    requires RolledAgree(w) && Fitting(w) && MarksInOrder(w) && !w.early && !w.torn && first <= hour
    ensures var k := Key(agent, hour);
      SamplesIn(w.onTime, agent, Later(first, Base(w)), Sooner(hour + 1, Mark(w)))
      == SamplesIn(w.onTime, agent, Later(first, Base(w)), Sooner(hour, Mark(w)))
         + if k in w.tiers.hourly then w.tiers.hourly[k].count else 0
  {
    var k := Key(agent, hour);
    if Base(w) <= hour < Mark(w) {
      CountOfCell(w.tiers.hourly, w.onTime, k);
      SamplesInHour(w.onTime, agent, Later(first, Base(w)), hour);
    } else if hour < Base(w) {
      NoSamplesIn(w.onTime, agent, Later(first, Base(w)), Sooner(hour + 1, Mark(w)));
      NoSamplesIn(w.onTime, agent, Later(first, Base(w)), Sooner(hour, Mark(w)));
    }
  }

  /** The hourly rows of some hours count the samples of those that are rolled up. */
  ghost predicate Counting(w: World, agent: string, first: nat, end: nat) {
    Counts(HourRows(w.tiers.hourly, agent, first, end))
      == SamplesIn(w.onTime, agent, Later(first, Base(w)), Sooner(end, Mark(w)))
  }

  lemma CountingMore(w: World, agent: string, first: nat, hour: nat)
    requires RolledAgree(w) && Fitting(w) && MarksInOrder(w) && !w.early && !w.torn && first <= hour
    requires Counting(w, agent, first, hour)
    ensures Counting(w, agent, first, hour + 1)
  {
    HourCounted(w, agent, first, hour);
    HourRowsGrow(w.tiers.hourly, agent, first, hour);
  }

  /** They do for any hours, if no interrupted run's rows are about. */
  lemma {:induction false} HoursCounted(w: World, agent: string, first: nat, end: nat)
    requires RolledAgree(w) && Fitting(w) && MarksInOrder(w) && !w.early && !w.torn && first <= end
    ensures Counting(w, agent, first, end)
    decreases end
  {
    if first < end {
      var hour := end - 1;
      HoursCounted(w, agent, first, hour);
      CountingMore(w, agent, first, hour);
    } else {
      NoSamplesIn(w.onTime, agent, Later(first, Base(w)), Sooner(end, Mark(w)));
    }
  }

  lemma {:induction false} SamplesSplit(raw: seq<Sample>, agent: string, first: nat, middle: nat, end: nat)
    requires first <= middle <= end
    ensures SamplesIn(raw, agent, first, end)
         == SamplesIn(raw, agent, first, middle) + SamplesIn(raw, agent, middle, end)
  {
    if raw != [] {
      SamplesSplit(raw[..|raw| - 1], agent, first, middle, end);
    }
  }

  lemma QuietHour(raw: seq<Sample>, agent: string, first: nat, hour: nat)
    requires first <= hour && Rows(raw, agent, hour) == []
    ensures Window(raw, agent, first, hour + 1) == Window(raw, agent, first, hour)
  {
    WindowPush(raw, agent, first, hour);
  }

  /** Hours without samples add nothing. */
  lemma {:induction false} QuietHours(raw: seq<Sample>, agent: string, first: nat, middle: nat, end: nat)
    requires first <= middle <= end && SamplesIn(raw, agent, middle, end) == 0
    ensures Window(raw, agent, first, end) == Window(raw, agent, first, middle)
    decreases end
  {
    if middle < end {
      var hour := end - 1;
      SamplesInHour(raw, agent, middle, hour);
      QuietHours(raw, agent, first, middle, hour);
      QuietHour(raw, agent, first, hour);
    }
  }

  /** The samples of the day that were rolled up only after the daily run of `w`. */
  function Missed(w: World, w': World, agent: string, day: nat): nat {
    SamplesIn(w'.onTime, agent, Later(DayFirst(w', day), Mark(w)), 24 * day + 24)
  }

  /** What a daily run leaves for an agent's day. */
  lemma RunCounts(w: World, now: Stamp, agent: string, day: nat)
    requires DailyInv(w) && StartDay(w.tiers, now) <= day < DayOf(now)
    ensures var k, hours, daily := Key(agent, day), DayRows(w.tiers.hourly, agent, day), AfterDaily(w.tiers, now).daily;
      CountAt(daily, k) == Counts(hours) && RowAt(daily, k) == if hours == [] then None else Some(DayRow(hours))
  {
    var hours := DayRows(w.tiers.hourly, agent, day);
    DailyRunAt(w.tiers, now, Key(agent, day));
    if hours == [] {
      assert Key(agent, day) !in w.tiers.daily;
    } else {
      DayRowColumns(hours);
    }
  }

  /** The samples of the day rolled up before a point, and those after it. */
  lemma CountsSplitAtMark(w: World, w': World, agent: string, day: nat)
    requires Inv(w) && !w.early && !w.torn && HoursFrozen(w, w')
    ensures Counts(DayRows(w.tiers.hourly, agent, day)) + Missed(w, w', agent, day) == |DaySamples(w', agent, day)|
  {
    var first, end := DayFirst(w', day), 24 * day + 24;
    HoursCounted(w, agent, 24 * day, end);
    WindowSize(w'.onTime, agent, first, end);
    var lo, hi := Later(24 * day, Base(w)), Sooner(end, Mark(w));
    if lo < hi {
      assert first == lo;
      SamplesFrozen(w, w', agent, lo, hi);
      WindowSize(w.onTime, agent, lo, hi);
      WindowSize(w'.onTime, agent, lo, hi);
      SamplesSplit(w'.onTime, agent, lo, hi, end);
      if Mark(w) >= end {
        NoSamplesIn(w'.onTime, agent, end, end);
        NoSamplesIn(w'.onTime, agent, Mark(w), end);
      }
    } else {
      NoSamplesIn(w.onTime, agent, lo, hi);
      assert Later(first, Mark(w)) != first ==> end <= first;
      if end <= first {
        NoSamplesIn(w'.onTime, agent, first, end);
        NoSamplesIn(w'.onTime, agent, Later(first, Mark(w)), end);
      }
    }
  }

  /** No row of the day lies outside the hours rolled up. */
  lemma RowsToMark(w: World, agent: string, day: nat)
    requires Inv(w) && !w.early && !w.torn && DayFirst(w, day) <= Mark(w)
    ensures DayRows(w.tiers.hourly, agent, day)
         == HourRows(w.tiers.hourly, agent, DayFirst(w, day), Sooner(24 * day + 24, Mark(w)))
  {
    var first, end := DayFirst(w, day), 24 * day + 24;
    var mark := Sooner(end, Mark(w));
    HourRowsSplit(w.tiers.hourly, agent, 24 * day, first, end);
    HourRowsSplit(w.tiers.hourly, agent, first, mark, end);
    HourRowsPresent(w.tiers.hourly, agent, 24 * day, first);
    HourRowsPresent(w.tiers.hourly, agent, mark, end);
  }

  /** If nothing of the day was rolled up later, all its samples lie before the mark of the run. */
  lemma AllBeforeMark(w: World, w': World, agent: string, day: nat)
    requires Inv(w) && HoursFrozen(w, w')
    requires Missed(w, w', agent, day) == 0 && DaySamples(w', agent, day) != []
    ensures var first, end := DayFirst(w', day), 24 * day + 24;
      var mark := Sooner(end, Mark(w));
      && first < mark && DayFirst(w, day) == first
      && DaySamples(w', agent, day) == Window(w.onTime, agent, first, mark)
  {
    var first, end := DayFirst(w', day), 24 * day + 24;
    var mark := Sooner(end, Mark(w));
    WindowSize(w'.onTime, agent, first, end);
    if end <= first {
      NoSamplesIn(w'.onTime, agent, first, end);
    }
    assert first < mark;
    if end <= Mark(w) {
      NoSamplesIn(w'.onTime, agent, mark, end);
    }
    QuietHours(w'.onTime, agent, first, mark, end);
    SamplesFrozen(w, w', agent, first, mark);
  }

  /** The hourly rows of the day describe its samples up to the mark. */
  lemma DescribedToMark(w: World, agent: string, day: nat)
    requires Inv(w) && !w.early && !w.torn
    ensures var first, end := DayFirst(w, day), 24 * day + 24;
      var hours, samples := DayRows(w.tiers.hourly, agent, day), Window(w.onTime, agent, first, Sooner(end, Mark(w)));
      first <= Mark(w) && samples != [] ==> hours != [] && Describes(DayRow(hours), hours, samples)
  {
    var first, mark := DayFirst(w, day), Sooner(24 * day + 24, Mark(w));
    if first <= Mark(w) {
      RowsToMark(w, agent, day);
      DayAgrees(w, agent, first, mark);
      WindowDescribed(w.tiers.hourly, w.onTime, agent, first, mark);
    }
  }

  /** And if nothing of the day was rolled up later, these are all. */
  lemma NothingMissed(w: World, w': World, agent: string, day: nat)
    requires Inv(w) && !w.early && !w.torn && HoursFrozen(w, w')
    requires Missed(w, w', agent, day) == 0 && DaySamples(w', agent, day) != []
    ensures var hours := DayRows(w.tiers.hourly, agent, day);
      hours != [] && Describes(DayRow(hours), hours, DaySamples(w', agent, day))
  {
    AllBeforeMark(w, w', agent, day);
    DescribedToMark(w, agent, day);
  }

  /**
    Over whole histories, whenever the daily run came: if no interrupted run's rows were about,
    the row's count and the samples rolled up only after the run make up the day's samples at
    any later time.  So the row, which stays for good, describes the day's samples exactly if
    none was missed, and no sample is once the hourly mark has reached the day's end.
   */
  lemma DailyRowExactIff(days: nat, ops: seq<Op>, now: Stamp, more: seq<Op>, agent: string, day: nat)
    requires days >= 1 && Brisk(ops + [DailyRun(now)] + more)
    requires var w := Exec(days, ops);
      && NotAfter(w.clock, now) && StartDay(w.tiers, now) <= day < DayOf(now) && !w.early && !w.torn
    ensures RowExactIff(Exec(days, ops), Exec(days, ops + [DailyRun(now)] + more), agent, day)
    ensures 24 * day + 24 <= Mark(Exec(days, ops)) ==>
      Missed(Exec(days, ops), Exec(days, ops + [DailyRun(now)] + more), agent, day) == 0
  {
    var w, run := Exec(days, ops), ops + [DailyRun(now)];
    var w' := Exec(days, run + more);
    BriskParts(ops, DailyRun(now), more);
    HistoryInv(days, ops);
    DailyHistory(days, ops);
    Continued(days, ops, DailyRun(now));
    RolledUpStays(days, run, more);
    ExactAfterRun(w, now, w', agent, day);
    if 24 * day + 24 <= Mark(w) {
      NoSamplesIn(w'.onTime, agent, Later(DayFirst(w', day), Mark(w)), 24 * day + 24);
    }
  }

  /** What a daily run in one world makes of a day, seen from a later one. */
  ghost predicate RowExactIff(w: World, w': World, agent: string, day: nat) {
    var k, samples, daily := Key(agent, day), DaySamples(w', agent, day), w'.tiers.daily;
    && CountAt(daily, k) + Missed(w, w', agent, day) == |samples|
    && (Tells(RowAt(daily, k), [], DayRows(w.tiers.hourly, agent, day), samples) <==> Missed(w, w', agent, day) == 0)
  }

  lemma RowKept(w: World, now: Stamp, w': World, agent: string, day: nat)
    requires DailyInv(w) && StartDay(w.tiers, now) <= day < DayOf(now)
    requires DaysFrozen(w.(tiers := AfterDaily(w.tiers, now), clock := now), w')
    ensures var k, hours, daily := Key(agent, day), DayRows(w.tiers.hourly, agent, day), w'.tiers.daily;
      CountAt(daily, k) == Counts(hours) && RowAt(daily, k) == if hours == [] then None else Some(DayRow(hours))
  {
    assert SameRow(AfterDaily(w.tiers, now).daily, w'.tiers.daily, Key(agent, day));
    RunCounts(w, now, agent, day);
  }

  /** A row whose count falls short by the missed samples tells the truth exactly if there are none. */
  lemma TellsIff(hours: seq<Rollup>, samples: seq<Sample>, missed: nat)
    requires Counts(hours) + missed == |samples| && (hours != [] ==> Counts(hours) > 0)
    requires missed == 0 && samples != [] ==> hours != [] && Describes(DayRow(hours), hours, samples)
    ensures Tells(if hours == [] then None else Some(DayRow(hours)), [], hours, samples) <==> missed == 0
  {
    if hours != [] {
      DayRowColumns(hours);
    }
  }

  lemma HoursCount(w: World, w': World, agent: string, day: nat)
    requires Inv(w) && !w.early && !w.torn && HoursFrozen(w, w')
    ensures var hours, samples := DayRows(w.tiers.hourly, agent, day), DaySamples(w', agent, day);
      var missed := Missed(w, w', agent, day);
      && Counts(hours) + missed == |samples| && (hours != [] ==> Counts(hours) > 0)
      && (missed == 0 && samples != [] ==> hours != [] && Describes(DayRow(hours), hours, samples))
  {
    CountsSplitAtMark(w, w', agent, day);
    SomeCounted(w.tiers.hourly, agent, 24 * day, 24 * day + 24);
    if DaySamples(w', agent, day) != [] && Missed(w, w', agent, day) == 0 {
      NothingMissed(w, w', agent, day);
    }
  }

  lemma HoursSeen(w: World, w': World, agent: string, day: nat)
    requires Inv(w) && !w.early && !w.torn && HoursFrozen(w, w')
    ensures var hours, samples := DayRows(w.tiers.hourly, agent, day), DaySamples(w', agent, day);
      && Counts(hours) + Missed(w, w', agent, day) == |samples|
      && (Tells(if hours == [] then None else Some(DayRow(hours)), [], hours, samples)
          <==> Missed(w, w', agent, day) == 0)
  {
    HoursCount(w, w', agent, day);
    TellsIff(DayRows(w.tiers.hourly, agent, day), DaySamples(w', agent, day), Missed(w, w', agent, day));
  }

  lemma ExactAfterRun(w: World, now: Stamp, w': World, agent: string, day: nat)
    requires Inv(w) && DailyInv(w) && !w.early && !w.torn && StartDay(w.tiers, now) <= day < DayOf(now)
    requires HoursFrozen(w, w') && DaysFrozen(w.(tiers := AfterDaily(w.tiers, now), clock := now), w')
    ensures RowExactIff(w, w', agent, day)
  {
    RowKept(w, now, w', agent, day);
    HoursSeen(w, w', agent, day);
  }

  /** A daily run over an empty hourly table writes nothing. */
  lemma NothingToRollUp(s: TierState, night: Stamp, k: Key)
    requires s.hourly == map[] && k !in s.daily
    ensures k !in AfterDaily(s, night).daily
  {
    if k in DueDays(s, night) {
      DueDaysAhead(s, night, k);
      HourRowsPresent(s.hourly, k.agent, 24 * k.slot, 24 * k.slot + 24);
    }
  }

  lemma RolledUpByTheHour(w: World, row: Sample, now: Stamp)
    requires w.tiers.raw == w.onTime == [row] && w.base.None? && w.tiers.hourlyMark.None?
    requires var h := row.at.sec / 3600; !InStartSecond(row.at, h) && HourOf(now) <= h + 24 && h < HourOf(now)
    ensures var h, w' := row.at.sec / 3600, AfterRun(w, now);
      Mark(w') == HourOf(now) && row in DaySamples(w', row.agent, h / 24) && w'.tiers.daily == w.tiers.daily
  {
    var h, w' := row.at.sec / 3600, AfterRun(w, now);
    OneSample(row);
    CountedInOwnHour(row.at);
    DaySamplesAre(w', row.agent, h / 24, row);
  }

  /**
    Days are rolled up too soon: a daily run just before the first hourly run leaves no row for
    a sample of the day before, and the hourly run that follows comes too late for it.
   */
  lemma TooSoonOccurs(days: nat, row: Sample, night: Stamp)
    requires var h := row.at.sec / 3600;
      !InStartSecond(row.at, h) && h / 24 < DayOf(night) && HourOf(night) <= h + 24
    ensures var day, w := row.at.sec / 3600 / 24, Exec(days, [Write(row), DailyRun(night), HourlyRun(night)]);
      && 24 * day + 24 <= Mark(w) && day < DayMark(w)
      && row in DaySamples(w, row.agent, day) && Key(row.agent, day) !in w.tiers.daily
  {
    var written := AfterWrite(START, row);
    var rolled := written.(tiers := AfterDaily(written.tiers, night), clock := night);
    ThreeSteps(days, [Write(row), DailyRun(night), HourlyRun(night)], Write(row), DailyRun(night), HourlyRun(night));
    OneSample(row);
    NothingToRollUp(written.tiers, night, Key(row.agent, row.at.sec / 3600 / 24));
    RolledUpByTheHour(rolled, row, night);
    assert Exec(days, [Write(row), DailyRun(night), HourlyRun(night)]) == AfterRun(rolled, night);
  }

  // ---------- An interrupted first run ----------

  /** A first run over one sample, its rows written but the mark not saved. */
  function Interrupted(row: Sample, now: Stamp): World {
    var w := AfterWrite(START, row);
    AfterCrash(w, now, DueHours(w.tiers, now))
  }

  lemma OneSample(row: Sample)
    ensures AfterWrite(START, row).tiers == TierState([row], map[], map[], None, None)
    ensures Earliest([row]) == Some(row.at)
  {
    assert [row][..0] == [];
  }

  lemma RowsOfOne(row: Sample)
    requires !InStartSecond(row.at, row.at.sec / 3600)
    ensures Rows([row], row.agent, row.at.sec / 3600) == [row]
  {
    CountedInOwnHour(row.at);
    BucketOfHour(row.at, row.at.sec / 3600);
    assert [row][..0] == [];
  }

  lemma InterruptedFirst(row: Sample, now: Stamp)
    requires var h := row.at.sec / 3600; !InStartSecond(row.at, h) && h < HourOf(now) <= h + 24
    ensures var w := Interrupted(row, now);
      && w.early && w.base.None? && w.clock == now && w.tiers.raw == [row]
      && w.tiers.hourlyMark.None? && w.tiers.dailyMark.None?
      && Key(row.agent, row.at.sec / 3600) in w.tiers.hourly
  {
    var h := row.at.sec / 3600;
    var start := FirstHour([row], None, HourOf(now));
    OneSample(row);
    RowsOfOne(row);
    assert start == h;
    StretchAt(Samples([row]), h, HourOf(now), Key(row.agent, h));
    CellFollowsRows([row], [row], Key(row.agent, h));
  }

  /** The next run starts too late, and what it does not look back to is stray. */
  lemma NextRunPassesBy(w: World, again: Stamp, row: Sample)
    requires w.base.None? && w.tiers.raw == [row] && w.tiers.hourlyMark.None?
    requires row.at.sec / 3600 + 24 < HourOf(again) && Key(row.agent, row.at.sec / 3600) in w.tiers.hourly
    ensures var h, w' := row.at.sec / 3600, AfterRun(w, again);
      && w'.early == w.early && w'.clock == again && w'.tiers.dailyMark == w.tiers.dailyMark
      && h < Base(w') && 24 * (h / 24) + 24 <= Mark(w') && Key(row.agent, h) in w'.tiers.hourly
      && Strays(w', row.agent, h / 24) != []
  {
    var h, w' := row.at.sec / 3600, AfterRun(w, again);
    OneSample(row);
    assert Key(row.agent, h) in w'.tiers.hourly;
    HourRowsPresent(w'.tiers.hourly, row.agent, 24 * (h / 24), DayFirst(w', h / 24));
  }

  lemma StartsByEarliest(s: TierState, night: Stamp, k: Key)
    requires s.dailyMark.None? && k in s.hourly && DayOf(night) <= k.slot / 24 + 7
    ensures StartDay(s, night) <= k.slot / 24
  {
    var slots := set key | key in s.hourly :: key.slot;
    assert k.slot in slots && EarliestHour(s.hourly) == Some(Least(slots));
    assert Least(slots) / 24 <= k.slot / 24;
  }

  /** A sample, a run that is interrupted once it has rolled up the sample's hour, and the next run. */
  function StrayOps(row: Sample, now: Stamp, again: Stamp): seq<Op> {
    [Write(row), HourlyCrash(now, DueHours(AfterWrite(START, row).tiers, now)), HourlyRun(again)]
  }

  lemma StrayWorld(days: nat, ops: seq<Op>, row: Sample, now: Stamp, again: Stamp)
    requires ops == StrayOps(row, now, again) && NotAfter(now, again)
    ensures Exec(days, ops) == AfterRun(Interrupted(row, now), again)
  {
    var crash := HourlyCrash(now, DueHours(AfterWrite(START, row).tiers, now));
    ThreeSteps(days, ops, Write(row), crash, HourlyRun(again));
    assert Apply(days, START, Write(row)) == AfterWrite(START, row);
    assert Apply(days, AfterWrite(START, row), crash) == Interrupted(row, now);
    assert Interrupted(row, now).clock == now;
  }

  lemma StraysLeft(days: nat, ops: seq<Op>, row: Sample, now: Stamp, again: Stamp)
    requires ops == StrayOps(row, now, again) && NotAfter(now, again)
    requires var h := row.at.sec / 3600;
      !InStartSecond(row.at, h) && h < HourOf(now) <= h + 24 && h + 24 < HourOf(again)
    ensures var h, w := row.at.sec / 3600, Exec(days, ops);
      && w.early && h < Base(w) && w.clock == again && 24 * (h / 24) + 24 <= Mark(w)
      && w.tiers.dailyMark.None? && Key(row.agent, h) in w.tiers.hourly && Strays(w, row.agent, h / 24) != []
  {
    InterruptedFirst(row, now);
    StrayWorld(days, ops, row, now, again);
    NextRunPassesBy(Interrupted(row, now), again, row);
  }

  lemma StraysCount(days: nat, ops: seq<Op>, now: Stamp, agent: string, day: nat)
    requires days >= 1 && Brisk(ops)
    requires var w := Exec(days, ops);
      && NotAfter(w.clock, now) && StartDay(w.tiers, now) <= day < DayOf(now)
      && 24 * day + 24 <= Mark(w) && Strays(w, agent, day) != []
    ensures var w, daily := Exec(days, ops), Apply(days, Exec(days, ops), DailyRun(now)).tiers.daily;
      Key(agent, day) in daily && daily[Key(agent, day)].count > |DaySamples(w, agent, day)|
  {
    DailyMatchesRaw(days, ops, now, agent, day);
  }

  /**
    Strays occur: a sample, a first run that rolls up its hour and is interrupted before the
    mark is saved, and a next run more than a day after the sample, which does not look back
    to it any more.  A daily run then counts more than the day's rolled-up samples.
   */
  lemma StraysOccur(days: nat, row: Sample, now: Stamp, again: Stamp, night: Stamp)
    requires days >= 1 && NotAfter(now, again) && NotAfter(again, night)
    requires var h := row.at.sec / 3600;
      && !InStartSecond(row.at, h) && h < HourOf(now) <= h + 24 && h + 24 < HourOf(again)
      && h / 24 < DayOf(night) <= h / 24 + 7
    ensures var day, w := row.at.sec / 3600 / 24, Exec(days, StrayOps(row, now, again));
      var daily := Apply(days, w, DailyRun(night)).tiers.daily;
      && w.early && row.at.sec < Base(w) * 3600 && Strays(w, row.agent, day) != []
      && Key(row.agent, day) in daily && daily[Key(row.agent, day)].count > |DaySamples(w, row.agent, day)|
  {
    var h, ops := row.at.sec / 3600, StrayOps(row, now, again);
    StraysLeft(days, ops, row, now, again);
    StartsByEarliest(Exec(days, ops).tiers, night, Key(row.agent, h));
    StraysCount(days, ops, night, row.agent, h / 24);
  }
}
