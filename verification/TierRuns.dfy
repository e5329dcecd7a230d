/**
  Whole histories of the store: writes, hourly and daily runs, interrupted runs and
  retention, with a clock that never goes back.  Every sequence of operations is a history.
 */
module TierRuns {
  import opened Sequences
  import opened Timestamps
  import opened RawSamples
  import opened Tiers
  import opened HistoryStore

  /** `now` is a clock reading; a retention reads the clock again after its rollup step. */
  datatype Op =
    | Write(row: Sample)
    | HourlyRun(now: Stamp)
    | HourlyCrash(now: Stamp, part: RollupTable)
    | DailyRun(now: Stamp)
    | DailyCrash(now: Stamp, part: RollupTable)
    | Retention(now: Stamp, later: Stamp)

  /**
    The store, the clock, and records for stating what must hold: where the first completed
    run started, the samples written before their hour was rolled up, as a table from which
    nothing is ever deleted, the samples written after, whether an interrupted run left rows
    before any run had completed, and whether one left rows since the last completed run.
   */
  datatype World = World(
    tiers: TierState,
    clock: Stamp,
    base: Option<nat>,
    onTime: seq<Sample>,
    late: seq<Sample>,
    early: bool,
    torn: bool)

  const START := World(TierState([], map[], map[], None, None), RawStamp(0, 0), None, [], [], false, false)

  function Or(m: Option<nat>, default: nat): nat {
    match m case None => default case Some(n) => n
  }

  function Mark(w: World): nat {
    Or(w.tiers.hourlyMark, 0)
  }

  function Base(w: World): nat {
    Or(w.base, 0)
  }

  /** The first run starts at its first hour, or at its end when there is nothing to do. */
  function NewBase(w: World, now: Stamp): nat {
    var start := StartHour(w.tiers, now);
    Or(w.base, if start < HourOf(now) then start else HourOf(now))
  }

  function AfterRun(w: World, now: Stamp): World {
    w.(tiers := AfterHourly(w.tiers, now), clock := now, base := Some(NewBase(w, now)), torn := false)
  }

  function AfterWrite(w: World, row: Sample): World {
    var w' := w.(tiers := w.tiers.(raw := Upsert(w.tiers.raw, row)));
    if w.tiers.hourlyMark.Some? && Bucket(row.at) < Mark(w)
    then w'.(late := w.late + [row])
    else w'.(onTime := Upsert(w.onTime, row))
  }

  function AfterCrash(w: World, now: Stamp, part: RollupTable): World {
    if PartOf(part, DueHours(w.tiers, now))
    then w.(tiers := w.tiers.(hourly := w.tiers.hourly + part), clock := now,
            early := w.early || (w.base.None? && part != map[]), torn := w.torn || part != map[])
    else w
  }

  function AfterDailyCrash(w: World, now: Stamp, part: RollupTable): World {
    if PartOf(part, DueDays(w.tiers, now))
    then w.(tiers := w.tiers.(daily := w.tiers.daily + part), clock := now)
    else w
  }

  function AfterRetention(w: World, now: Stamp, later: Stamp, cutoff: Option<Stamp>): World {
    var rolled := AfterRun(w, now);
    rolled.(tiers := AfterDelete(rolled.tiers, cutoff), clock := later)
  }

  /** The clock never goes back: an operation with an earlier reading belongs to no history and changes nothing. */
  predicate InTime(w: World, op: Op) {
    match op
    case Write(row) => true
    case Retention(now, later) => NotAfter(w.clock, now) && NotAfter(now, later)
    case _ => NotAfter(w.clock, op.now)
  }

  function Apply(days: nat, w: World, op: Op): World {
    if !InTime(w, op) then w
    else
      match op
      case Write(row) => AfterWrite(w, row)
      case HourlyRun(now) => AfterRun(w, now)
      case HourlyCrash(now, part) => AfterCrash(w, now, part)
      case DailyRun(now) => w.(tiers := AfterDaily(w.tiers, now), clock := now)
      case DailyCrash(now, part) => AfterDailyCrash(w, now, part)
      case Retention(now, later) => AfterRetention(w, now, later, Cutoff(later, days))
  }

  function Exec(days: nat, ops: seq<Op>): World {
    if ops == [] then START else Apply(days, Exec(days, ops[..|ops| - 1]), ops[|ops| - 1])
  }

  /** The rollup step of a retention takes at most 23 hours. */
  predicate BriskOp(op: Op) {
    op.Retention? ==> op.later.sec <= op.now.sec + 23 * 3600
  }

  predicate Brisk(ops: seq<Op>) {
    forall i | 0 <= i < |ops| :: BriskOp(ops[i])
  }

  /**
    The operations are what the store's methods do, complete or interrupted: each changes the
    tables as the methods' contracts say.
   */
  lemma StepsAreTheMethods(days: nat, w: World, row: Sample, now: Stamp, later: Stamp, part: RollupTable)
    requires NotAfter(w.clock, now) && NotAfter(now, later)
    ensures Apply(days, w, Write(row)).tiers == w.tiers.(raw := Upsert(w.tiers.raw, row))
    ensures Apply(days, w, HourlyRun(now)).tiers == AfterHourly(w.tiers, now)
    ensures PartOf(part, DueHours(w.tiers, now)) ==>
      Apply(days, w, HourlyCrash(now, part)).tiers == w.tiers.(hourly := w.tiers.hourly + part)
    ensures Apply(days, w, Retention(now, later)).tiers
         == AfterDelete(AfterHourly(w.tiers, now), Cutoff(later, days))
  {
  }

  lemma DailyStepsAreTheMethods(days: nat, w: World, now: Stamp, part: RollupTable)
    requires NotAfter(w.clock, now)
    ensures Apply(days, w, DailyRun(now)).tiers == AfterDaily(w.tiers, now)
    ensures PartOf(part, DueDays(w.tiers, now)) ==>
      Apply(days, w, DailyCrash(now, part)).tiers == w.tiers.(daily := w.tiers.daily + part)
  {
  }

  // ---------- Rows under the changes a table goes through ----------

  lemma RowsAppended(raw: seq<Sample>, last: Sample, agent: string, hour: nat)
    ensures Rows(raw + [last], agent, hour)
         == Rows(raw, agent, hour) + (if last.agent == agent && InHour(last.at, hour) then [last] else [])
  {
  }

  lemma {:induction false} RowsReplaced(raw: seq<Sample>, row: Sample, agent: string, hour: nat)
    ensures Rows(Replacing(raw, row), agent, hour) == Replacing(Rows(raw, agent, hour), row)
  {
    if raw != [] {
      var front, last := raw[..|raw| - 1], raw[|raw| - 1];
      assert raw == front + [last];
      RowsReplaced(front, row, agent, hour);
      RowsReplacedStep(front, last, row, agent, hour);
    }
  }

  lemma RowsReplacedStep(front: seq<Sample>, last: Sample, row: Sample, agent: string, hour: nat)
    requires Rows(Replacing(front, row), agent, hour) == Replacing(Rows(front, agent, hour), row)
    ensures Rows(Replacing(front + [last], row), agent, hour) == Replacing(Rows(front + [last], agent, hour), row)
  {
    var rest, rows := Replacing(front, row), Rows(front, agent, hour);
    var one := if last.agent == agent && InHour(last.at, hour) then [last] else [];
    ReplacingAppends(front, last, row);
    RowsAppended(front, last, agent, hour);
    assert Rows(front + [last], agent, hour) == rows + one;
    if one == [] {
      assert rows + one == rows;
    } else {
      ReplacingAppends(rows, last, row);
    }
    if SameKey(last, row) {
      assert rest + [] == rest;
    } else {
      RowsAppended(rest, last, agent, hour);
      assert Replacing(rows, row) + [] == Replacing(rows, row);
    }
    assert Rows(rest, agent, hour) + [] == Rows(rest, agent, hour);
  }

  lemma {:induction false} ReplacingAppends(table: seq<Sample>, last: Sample, row: Sample)
    ensures Replacing(table + [last], row) == Replacing(table, row) + (if SameKey(last, row) then [] else [last])
  {
    if table == [] {
      assert table + [last] == [last];
    } else {
      assert (table + [last])[1..] == table[1..] + [last];
      ReplacingAppends(table[1..], last, row);
    }
  }

  /** An upsert changes the rows of one agent and hour as if they were a table of their own. */
  lemma RowsUpserted(raw: seq<Sample>, row: Sample, agent: string, hour: nat)
    ensures Rows(Upsert(raw, row), agent, hour)
         == if row.agent == agent && InHour(row.at, hour) then Upsert(Rows(raw, agent, hour), row)
            else Rows(raw, agent, hour)
  {
    RowsReplaced(raw, row, agent, hour);
    RowsAppended(Replacing(raw, row), row, agent, hour);
    if !(row.agent == agent && InHour(row.at, hour)) {
      var rows := Rows(raw, agent, hour);
      forall r | r in rows ensures !SameKey(r, row) {
        RowsMembers(raw, agent, hour, r);
      }
      NothingReplaced(rows, row);
    }
  }

  lemma {:induction false} NothingReplaced(rows: seq<Sample>, row: Sample)
    requires forall r | r in rows :: !SameKey(r, row)
    ensures Replacing(rows, row) == rows
  {
    if rows != [] {
      assert rows[0] in rows;
      NothingReplaced(rows[1..], row);
    }
  }

  lemma {:induction false} RowsKept(raw: seq<Sample>, cutoff: Option<Stamp>, agent: string, hour: nat)
    requires forall t: Stamp | Expires(t, cutoff) :: Bucket(t) < hour
    ensures Rows(Kept(raw, cutoff), agent, hour) == Rows(raw, agent, hour)
  {
    if raw != [] {
      var n := |raw| - 1;
      var front, last := raw[..n], raw[n];
      RowsKept(front, cutoff, agent, hour);
      BucketOfHour(last.at, hour);
      RowsAppended(Kept(front, cutoff), last, agent, hour);
      assert Kept(front, cutoff) + [] == Kept(front, cutoff);
    }
  }

  /** A cutoff no later than an hour's start deletes nothing from that hour on. */
  predicate Behind(cutoff: Option<Stamp>, hour: nat) {
    cutoff.Some? ==> cutoff.value.sec <= hour * 3600
  }

  lemma BehindSpares(cutoff: Option<Stamp>, hour: nat)
    requires Behind(cutoff, hour)
    ensures forall t: Stamp | Expires(t, cutoff) :: Bucket(t) < hour
  {
    if cutoff.Some? {
      CutoffSparesFrom(cutoff.value, hour);
    }
  }

  // ---------- The invariant ----------

  ghost predicate MarksInOrder(w: World) {
    && (w.tiers.hourlyMark.Some? <==> w.base.Some?)
    && Base(w) <= Mark(w) <= HourOf(w.clock)
  }

  /** Hours not yet rolled up hold exactly the samples written on time. */
  ghost predicate PendingAgree(w: World) {
    forall a, h: nat | Mark(w) <= h :: Rows(w.tiers.raw, a, h) == Rows(w.onTime, a, h)
  }

  /** Rolled-up hours say what the samples written on time say, even after raw samples were deleted. */
  ghost predicate RolledAgree(w: World) {
    forall k: Key | Base(w) <= k.slot < Mark(w) :: Agrees(w.tiers.hourly, Samples(w.onTime), k)
  }

  /** A raw sample in a rolled-up hour was written on time, and so was counted, or it came late. */
  ghost predicate Explained(w: World) {
    forall r | r in w.tiers.raw && w.base.Some? && Base(w) <= Bucket(r.at) < Mark(w) :: r in w.onTime || r in w.late
  }

  /** Rows that an interrupted run left beyond the mark belong to past hours that still have samples. */
  ghost predicate LeftoversBacked(w: World) {
    forall k | k in w.tiers.hourly && Mark(w) <= k.slot ::
      k.slot < HourOf(w.clock) && Rows(w.tiers.raw, k.agent, k.slot) != []
  }

  /**
    Only interrupted runs leave rows outside the rolled-up hours: below them the early ones,
    beyond them the recent ones.  Every row counts some samples.
   */
  ghost predicate Fitting(w: World) {
    && (!w.early ==> forall k | k in w.tiers.hourly :: Base(w) <= k.slot)
    && (!w.early && w.base.None? ==> w.tiers.hourly == map[])
    && (!w.torn ==> forall k | k in w.tiers.hourly :: k.slot < Mark(w))
    && (forall k | k in w.tiers.hourly :: w.tiers.hourly[k].count > 0)
  }

  ghost predicate Inv(w: World) {
    MarksInOrder(w) && PendingAgree(w) && RolledAgree(w) && Explained(w) && LeftoversBacked(w) && Fitting(w)
  }

  lemma StartInv()
    ensures Inv(START)
  {
  }

  lemma UpsertElsewhere(raw: seq<Sample>, row: Sample, agent: string, hour: nat)
    requires Bucket(row.at) != hour
    ensures Rows(Upsert(raw, row), agent, hour) == Rows(raw, agent, hour)
  {
    RowsUpserted(raw, row, agent, hour);
    BucketOfHour(row.at, hour);
  }

  lemma UpsertKeepsSome(raw: seq<Sample>, row: Sample, agent: string, hour: nat)
    requires Rows(raw, agent, hour) != []
    ensures Rows(Upsert(raw, row), agent, hour) != []
  {
    RowsUpserted(raw, row, agent, hour);
  }

  lemma WriteKeeps(w: World, row: Sample)
    requires Inv(w)
    ensures Inv(AfterWrite(w, row))
  {
    var w' := AfterWrite(w, row);
    var isLate := w.tiers.hourlyMark.Some? && Bucket(row.at) < Mark(w);
    assert PendingAgree(w') by {
      forall a, h: nat | Mark(w') <= h ensures Rows(w'.tiers.raw, a, h) == Rows(w'.onTime, a, h) {
        RowsUpserted(w.tiers.raw, row, a, h);
        RowsUpserted(w.onTime, row, a, h);
        BucketOfHour(row.at, h);
      }
    }
    assert Explained(w') by {
      forall r | r in w'.tiers.raw && w'.base.Some? && Base(w') <= Bucket(r.at) < Mark(w')
        ensures r in w'.onTime || r in w'.late
      {
        UpsertMembers(w.tiers.raw, row, r);
        UpsertMembers(w.onTime, row, r);
      }
    }
    assert LeftoversBacked(w') by {
      forall k | k in w'.tiers.hourly && Mark(w') <= k.slot
        ensures k.slot < HourOf(w'.clock) && Rows(w'.tiers.raw, k.agent, k.slot) != []
      {
        UpsertKeepsSome(w.tiers.raw, row, k.agent, k.slot);
      }
    }
    if !isLate {
      forall k: Key | Base(w) <= k.slot < Mark(w) ensures Agrees(w'.tiers.hourly, Samples(w'.onTime), k) {
        UpsertElsewhere(w.onTime, row, k.agent, k.slot);
        CellFollowsRows(w.onTime, w'.onTime, k);
      }
    }
  }

  lemma CellFollowsRows(raw: seq<Sample>, other: seq<Sample>, k: Key)
    requires Rows(raw, k.agent, k.slot) == Rows(other, k.agent, k.slot)
    ensures Cell(Samples(raw), k) == Cell(Samples(other), k)
    ensures Cell(Samples(raw), k).Some? <==> Rows(raw, k.agent, k.slot) != []
  {
  }

  /** What a complete run leaves at one key. */
  lemma RunAt(w: World, now: Stamp, k: Key)
    ensures var first, end := StartHour(w.tiers, now), HourOf(now);
      var table := AfterRun(w, now).tiers.hourly;
      if first <= k.slot < end && Rows(w.tiers.raw, k.agent, k.slot) != [] then Agrees(table, Samples(w.tiers.raw), k)
      else (k in table <==> k in w.tiers.hourly) && (k in table ==> table[k] == w.tiers.hourly[k])
  {
    StretchAt(Samples(w.tiers.raw), StartHour(w.tiers, now), HourOf(now), k);
    CellFollowsRows(w.tiers.raw, w.tiers.raw, k);
  }

  lemma RunKeepsRolled(w: World, now: Stamp)
    requires Inv(w) && NotAfter(w.clock, now)
    ensures RolledAgree(AfterRun(w, now)) && LeftoversBacked(AfterRun(w, now))
  {
    var w' := AfterRun(w, now);
    HoursAdvance(w.clock, now);
    forall k: Key | Base(w') <= k.slot < Mark(w') ensures Agrees(w'.tiers.hourly, Samples(w'.onTime), k) {
      RunAt(w, now, k);
      if k.slot < Mark(w) {
        assert Agrees(w.tiers.hourly, Samples(w.onTime), k);
      } else {
        assert Rows(w.tiers.raw, k.agent, k.slot) == Rows(w.onTime, k.agent, k.slot);
        CellFollowsRows(w.tiers.raw, w.onTime, k);
      }
    }
    forall k | k in w'.tiers.hourly ensures k.slot < Mark(w') {
      RunAt(w, now, k);
    }
  }

  lemma RunKeepsExplained(w: World, now: Stamp)
    requires Inv(w) && NotAfter(w.clock, now)
    ensures Explained(AfterRun(w, now))
  {
    var w' := AfterRun(w, now);
    forall r | r in w'.tiers.raw && w'.base.Some? && Base(w') <= Bucket(r.at) < Mark(w')
      ensures r in w'.onTime || r in w'.late
    {
      var h := Bucket(r.at);
      if Mark(w) <= h {
        BucketOfHour(r.at, h);
        RowsMembers(w.tiers.raw, r.agent, h, r);
        RowsMembers(w.onTime, r.agent, h, r);
      }
    }
  }

  lemma RunKeepsFitting(w: World, now: Stamp)
    requires Inv(w) && NotAfter(w.clock, now)
    ensures Fitting(AfterRun(w, now))
  {
    var w' := AfterRun(w, now);
    HoursAdvance(w.clock, now);
    forall k | k in w'.tiers.hourly
      ensures k.slot < Mark(w')
      ensures !w'.early ==> Base(w') <= k.slot
      ensures w'.tiers.hourly[k].count > 0
    {
      RunAt(w, now, k);
      StretchAt(Samples(w.tiers.raw), StartHour(w.tiers, now), HourOf(now), k);
    }
  }

  lemma RunKeeps(w: World, now: Stamp)
    requires Inv(w) && NotAfter(w.clock, now)
    ensures Inv(AfterRun(w, now)) && Mark(AfterRun(w, now)) == HourOf(now)
  {
    HoursAdvance(w.clock, now);
    RunKeepsRolled(w, now);
    RunKeepsExplained(w, now);
    RunKeepsFitting(w, now);
  }

  lemma CrashedAhead(w: World, now: Stamp, part: RollupTable, k: Key)
    requires PartOf(part, DueHours(w.tiers, now)) && k in part
    ensures StartHour(w.tiers, now) <= k.slot < HourOf(now) && Rows(w.tiers.raw, k.agent, k.slot) != []
    ensures part[k].count > 0
  {
    StretchAt(Samples(w.tiers.raw), StartHour(w.tiers, now), HourOf(now), k);
    CellFollowsRows(w.tiers.raw, w.tiers.raw, k);
  }

  lemma CrashKeepsRows(w: World, now: Stamp, part: RollupTable)
    requires Inv(w) && NotAfter(w.clock, now) && PartOf(part, DueHours(w.tiers, now))
    ensures RolledAgree(AfterCrash(w, now, part)) && LeftoversBacked(AfterCrash(w, now, part))
  {
    var w' := AfterCrash(w, now, part);
    HoursAdvance(w.clock, now);
    forall k: Key | Base(w') <= k.slot < Mark(w') ensures Agrees(w'.tiers.hourly, Samples(w'.onTime), k) {
      assert Agrees(w.tiers.hourly, Samples(w.onTime), k);
      if k in part {
        CrashedAhead(w, now, part, k);
      }
    }
    forall k | k in w'.tiers.hourly && Mark(w') <= k.slot
      ensures k.slot < HourOf(w'.clock) && Rows(w'.tiers.raw, k.agent, k.slot) != []
    {
      if k in part {
        CrashedAhead(w, now, part, k);
      }
    }
  }

  lemma CrashKeepsFitting(w: World, now: Stamp, part: RollupTable)
    requires MarksInOrder(w) && Fitting(w) && PartOf(part, DueHours(w.tiers, now))
    ensures Fitting(AfterCrash(w, now, part))
  {
    forall k | k in part ensures StartHour(w.tiers, now) <= k.slot && part[k].count > 0 {
      CrashedAhead(w, now, part, k);
    }
    if part == map[] {
      EmptyPart(w.tiers.hourly);
    }
  }

  lemma CrashKeeps(w: World, now: Stamp, part: RollupTable)
    requires Inv(w) && NotAfter(w.clock, now)
    ensures Inv(AfterCrash(w, now, part))
  {
    if PartOf(part, DueHours(w.tiers, now)) {
      HoursAdvance(w.clock, now);
      CrashKeepsRows(w, now, part);
      CrashKeepsFitting(w, now, part);
    }
  }

  /** A cutoff no later than the mark takes nothing from the hours still to be rolled up. */
  lemma RetentionKeeps(w: World, now: Stamp, later: Stamp, cutoff: Option<Stamp>)
    requires Inv(w) && NotAfter(w.clock, now) && NotAfter(now, later) && Behind(cutoff, HourOf(now))
    ensures Inv(AfterRetention(w, now, later, cutoff))
  {
    var rolled, w' := AfterRun(w, now), AfterRetention(w, now, later, cutoff);
    RunKeeps(w, now);
    HoursAdvance(now, later);
    BehindSpares(cutoff, Mark(rolled));
    forall a, h: nat | Mark(rolled) <= h ensures Rows(w'.tiers.raw, a, h) == Rows(rolled.tiers.raw, a, h) {
      RowsKept(rolled.tiers.raw, cutoff, a, h);
    }
    assert Explained(w') by {
      forall r | r in w'.tiers.raw ensures r in rolled.tiers.raw {
        KeptMembers(rolled.tiers.raw, cutoff, r);
      }
    }
  }

  /** A rollup step of at most 23 hours leaves a cutoff of a day or more no later than the mark. */
  lemma CutoffBehindMark(now: Stamp, later: Stamp, days: nat)
    requires days >= 1 && later.sec <= now.sec + 23 * 3600
    ensures Behind(Cutoff(later, days), HourOf(now))
  {
  }

  lemma DailyKeeps(w: World, w': World)
    requires Inv(w) && NotAfter(w.clock, w'.clock)
    requires w' == w.(tiers := w.tiers.(daily := w'.tiers.daily, dailyMark := w'.tiers.dailyMark), clock := w'.clock)
    ensures Inv(w')
  {
  }

  lemma StepKeeps(days: nat, w: World, op: Op)
    requires Inv(w) && days >= 1 && BriskOp(op)
    ensures Inv(Apply(days, w, op))
  {
    if InTime(w, op) {
      match op
      case Write(row) => WriteKeeps(w, row);
      case HourlyRun(now) => RunKeeps(w, now);
      case HourlyCrash(now, part) => CrashKeeps(w, now, part);
      case DailyRun(now) => DailyKeeps(w, Apply(days, w, op));
      case DailyCrash(now, part) => DailyKeeps(w, Apply(days, w, op));
      case Retention(now, later) =>
        CutoffBehindMark(now, later, days);
        RetentionKeeps(w, now, later, Cutoff(later, days));
    }
  }

  lemma {:induction false} HistoryInv(days: nat, ops: seq<Op>)
    requires days >= 1 && Brisk(ops)
    ensures Inv(Exec(days, ops))
  {
    if ops == [] {
      StartInv();
    } else {
      var front := ops[..|ops| - 1];
      HistoryInv(days, front);
      StepKeeps(days, Exec(days, front), ops[|ops| - 1]);
    }
  }

  // ---------- Incremental equals batch ----------

  /** The number of samples of one agent in a range of hours. */
  function SamplesIn(raw: seq<Sample>, agent: string, first: nat, end: nat): nat {
    if raw == [] then 0
    else
      var last := raw[|raw| - 1];
      SamplesIn(raw[..|raw| - 1], agent, first, end)
      + (if last.agent == agent && first <= Bucket(last.at) < end then 1 else 0)
  }

  lemma {:induction false} SamplesInHour(raw: seq<Sample>, agent: string, first: nat, hour: nat)
    requires first <= hour
    ensures SamplesIn(raw, agent, first, hour + 1) == SamplesIn(raw, agent, first, hour) + |Rows(raw, agent, hour)|
  {
    if raw != [] {
      SamplesInHour(raw[..|raw| - 1], agent, first, hour);
      BucketOfHour(raw[|raw| - 1].at, hour);
    }
  }

  lemma {:induction false} NoSamplesIn(raw: seq<Sample>, agent: string, first: nat, end: nat)
    requires end <= first
    ensures SamplesIn(raw, agent, first, end) == 0
  {
    if raw != [] {
      NoSamplesIn(raw[..|raw| - 1], agent, first, end);
    }
  }

  lemma CountsAppend(rows: seq<Rollup>, row: Rollup)
    ensures Counts(rows + [row]) == Counts(rows) + row.count
  {
  }

  lemma CountOfCell(table: RollupTable, raw: seq<Sample>, k: Key)
    requires Agrees(table, Samples(raw), k)
    ensures (if k in table then table[k].count else 0) == |Rows(raw, k.agent, k.slot)|
  {
  }

  lemma HourRowsGrow(table: RollupTable, agent: string, first: nat, hour: nat)
    requires first <= hour
    ensures Counts(HourRows(table, agent, first, hour + 1))
         == Counts(HourRows(table, agent, first, hour))
            + (if Key(agent, hour) in table then table[Key(agent, hour)].count else 0)
  {
    var rows := HourRows(table, agent, first, hour);
    if Key(agent, hour) in table {
      CountsAppend(rows, table[Key(agent, hour)]);
    } else {
      assert rows + [] == rows;
    }
  }

  lemma {:induction false} CountsAddUp(table: RollupTable, raw: seq<Sample>, agent: string, first: nat, end: nat)
    requires forall k: Key | k.agent == agent && first <= k.slot < end :: Agrees(table, Samples(raw), k)
    ensures Counts(HourRows(table, agent, first, end)) == SamplesIn(raw, agent, first, end)
    decreases end
  {
    if first < end {
      CountsAddUp(table, raw, agent, first, end - 1);
      CountOfCell(table, raw, Key(agent, end - 1));
      HourRowsGrow(table, agent, first, end - 1);
      SamplesInHour(raw, agent, first, end - 1);
    } else {
      NoSamplesIn(raw, agent, first, end);
    }
  }

  /** A table whose rows all lie in rolled-up hours is the one a single run makes exactly if none lies below them. */
  lemma WholeTable(w: World)
    requires RolledAgree(w) && forall k | k in w.tiers.hourly :: k.slot < Mark(w)
    ensures (forall k | k in w.tiers.hourly :: Base(w) <= k.slot)
       <==> w.tiers.hourly == Stretch(Samples(w.onTime), Base(w), Mark(w))
  {
    var table, whole := w.tiers.hourly, Stretch(Samples(w.onTime), Base(w), Mark(w));
    if forall k | k in table :: Base(w) <= k.slot {
      forall k: Key
        ensures k in table <==> k in whole
        ensures k in table ==> table[k] == whole[k]
      {
        StretchAt(Samples(w.onTime), Base(w), Mark(w), k);
      }
      TablesEqual(table, whole);
    }
    if table == whole {
      forall k | k in table ensures Base(w) <= k.slot {
        StretchAt(Samples(w.onTime), Base(w), Mark(w), k);
      }
    }
  }

  /**
    Incremental equals batch: whatever the runs, interrupted runs, writes and deletions,
    the rolled-up hours say what one run over all samples written on time says, and per
    agent the sample counts add up to the samples in that window.  Unless a run was
    interrupted since the last completed one, the whole table is that of one run from the
    first start to the last end exactly if no row lies before the first start, which only a
    run interrupted before any had completed can leave there.
   */
  lemma IncrementalEqualsBatch(days: nat, ops: seq<Op>, agent: string)
    requires days >= 1 && Brisk(ops)
    ensures var w := Exec(days, ops);
      && (forall k: Key | Base(w) <= k.slot < Mark(w) :: Agrees(w.tiers.hourly, Samples(w.onTime), k))
      && Counts(HourRows(w.tiers.hourly, agent, Base(w), Mark(w))) == SamplesIn(w.onTime, agent, Base(w), Mark(w))
      && (!w.torn ==>
            ((forall k | k in w.tiers.hourly :: Base(w) <= k.slot)
             <==> w.tiers.hourly == Stretch(Samples(w.onTime), Base(w), Mark(w))))
      && (!w.early ==> forall k | k in w.tiers.hourly :: Base(w) <= k.slot)
  {
    var w := Exec(days, ops);
    HistoryInv(days, ops);
    CountsAddUp(w.tiers.hourly, w.onTime, agent, Base(w), Mark(w));
    if !w.torn {
      WholeTable(w);
    }
  }

  /**
    After any history, a row of a rolled-up hour is true of the samples of its agent and hour
    written on time: their number, the sums of their processor load, used and total memory,
    and their greatest load; and there is one exactly if there are samples.
   */
  lemma HourlyRowsTrue(days: nat, ops: seq<Op>)
    requires days >= 1 && Brisk(ops)
    ensures var w := Exec(days, ops); HoursTrue(w.tiers.hourly, w.onTime, Base(w), Mark(w))
  {
    var w := Exec(days, ops);
    HistoryInv(days, ops);
    forall k: Key | Base(w) <= k.slot < Mark(w)
      ensures if CountIn(w.onTime, k.agent, k.slot) == 0 then k !in w.tiers.hourly
              else k in w.tiers.hourly && HourTrue(w.tiers.hourly[k], w.onTime, k.agent, k.slot)
    {
      AgreementTrue(w.tiers.hourly, w.onTime, k);
    }
  }

  /**
    However many runs were interrupted in a row, the next complete run restores the table of
    one single run, as long as the first interruption came after some run had completed.
   */
  lemma NextRunRestores(days: nat, ops: seq<Op>, now: Stamp)
    requires days >= 1 && Brisk(ops) && NotAfter(Exec(days, ops).clock, now) && !Exec(days, ops).early
    ensures var w := Apply(days, Exec(days, ops), HourlyRun(now));
      w.tiers.hourly == Stretch(Samples(w.onTime), Base(w), HourOf(now))
  {
    var w := Exec(days, ops);
    HistoryInv(days, ops);
    RunKeeps(w, now);
    WholeTable(AfterRun(w, now));
  }

  /** Without interrupted runs no row lies outside the rolled-up hours. */
  lemma {:induction false} NothingInterrupted(days: nat, ops: seq<Op>)
    requires forall i | 0 <= i < |ops| :: !ops[i].HourlyCrash?
    ensures !Exec(days, ops).early && !Exec(days, ops).torn
  {
    if ops != [] {
      NothingInterrupted(days, ops[..|ops| - 1]);
      CompleteStep(days, Exec(days, ops[..|ops| - 1]), ops[|ops| - 1]);
    }
  }

  lemma CompleteStep(days: nat, w: World, op: Op)
    requires !w.early && !w.torn && !op.HourlyCrash?
    ensures !Apply(days, w, op).early && !Apply(days, w, op).torn
  {
  }

  /**
    Any sequence of successful runs equals one run: if no hourly run is interrupted, the whole
    hourly table is that of a single run from the first start to the last end, over the
    samples written on time, which are simply the raw table if nothing came late and nothing
    was deleted.
   */
  lemma SuccessfulRunsEqualOne(days: nat, ops: seq<Op>)
    requires days >= 1 && Brisk(ops) && forall i | 0 <= i < |ops| :: !ops[i].HourlyCrash?
    ensures var w := Exec(days, ops);
      && w.tiers.hourly == Stretch(Samples(w.onTime), Base(w), Mark(w))
      && (w.late == [] && (forall i | 0 <= i < |ops| :: !ops[i].Retention?) ==>
            w.tiers.hourly == Stretch(Samples(w.tiers.raw), Base(w), Mark(w)))
  {
    var w := Exec(days, ops);
    HistoryInv(days, ops);
    NothingInterrupted(days, ops);
    WholeTable(w);
    if w.late == [] && forall i | 0 <= i < |ops| :: !ops[i].Retention? {
      NothingLateNothingDeleted(days, ops);
    }
  }

  /** Without late samples and deletions the on-time table is simply the raw table. */
  lemma {:induction false} NothingLateNothingDeleted(days: nat, ops: seq<Op>)
    requires Exec(days, ops).late == [] && (forall i | 0 <= i < |ops| :: !ops[i].Retention?)
    ensures Exec(days, ops).onTime == Exec(days, ops).tiers.raw
  {
    if ops != [] {
      var front := ops[..|ops| - 1];
      LateGrows(days, Exec(days, front), ops[|ops| - 1]);
      NothingLateNothingDeleted(days, front);
    }
  }

  lemma LateGrows(days: nat, w: World, op: Op)
    ensures w.late <= Apply(days, w, op).late
  {
  }

  // ---------- Retention ----------

  /**
    Retention, after any history: it deletes exactly the samples more than `days` days older
    than its second clock reading, the texts deciding within that very second.
   */
  lemma RetentionIff(days: nat, ops: seq<Op>, now: Stamp, later: Stamp, r: Sample)
    requires InTime(Exec(days, ops), Retention(now, later))
    ensures var oldest := later.sec - days * 86400;
      r in Exec(days, ops + [Retention(now, later)]).tiers.raw <==>
        && r in Exec(days, ops).tiers.raw
        && (r.at.sec > oldest || (r.at.sec == oldest && !TextLess(Tail(r.at.nano), Tail(later.nano))))
  {
    var op := Retention(now, later);
    assert (ops + [op])[..|ops|] == ops && (ops + [op])[|ops|] == op;
    DeletesExpired(Exec(days, ops).tiers.raw, later, days, r);
  }

  /** The sample is among those that the row of its hour was computed from. */
  ghost predicate Counted(w: World, r: Sample) {
    && Bucket(r.at) >= 0
    && var k := Key(r.agent, Bucket(r.at));
       var rows := Rows(w.onTime, r.agent, Bucket(r.at));
       r in rows && k in w.tiers.hourly && w.tiers.hourly[k] == HourRow(rows)
  }

  /**
    Retention safety: a raw sample that a retention deletes is counted in the hourly table,
    unless it was written after its hour's rollup, lay before the first run's start, or has
    a fraction in that start's first second.  `FirstRun` shows that the last exception occurs.
   */
  lemma RetentionSafety(days: nat, ops: seq<Op>, now: Stamp, later: Stamp, r: Sample)
    requires days >= 1 && Brisk(ops) && BriskOp(Retention(now, later))
    requires r in Exec(days, ops).tiers.raw
    requires r !in Apply(days, Exec(days, ops), Retention(now, later)).tiers.raw
    ensures var w := Apply(days, Exec(days, ops), Retention(now, later));
      r.at.sec < Base(w) * 3600 || InStartSecond(r.at, Base(w)) || r in w.late || Counted(w, r)
  {
    HistoryInv(days, ops);
    CutoffBehindMark(now, later, days);
    DeletedIsCounted(Exec(days, ops), now, later, Cutoff(later, days), r);
    CountedBefore(r.at, Base(Apply(days, Exec(days, ops), Retention(now, later))));
  }

  lemma DeletedIsCounted(before: World, now: Stamp, later: Stamp, cutoff: Option<Stamp>, r: Sample)
    requires Inv(before) && NotAfter(before.clock, now) && Behind(cutoff, HourOf(now))
    requires r in before.tiers.raw && r !in AfterRetention(before, now, later, cutoff).tiers.raw
    ensures var w := AfterRetention(before, now, later, cutoff);
      Bucket(r.at) < Base(w) || r in w.late || Counted(w, r)
  {
    var w := AfterRun(before, now);
    RunKeeps(before, now);
    BehindSpares(cutoff, Mark(w));
    KeptMembers(w.tiers.raw, cutoff, r);
    var h := Bucket(r.at);
    assert h < Mark(w);
    if Base(w) <= h && r !in w.late {
      assert r in w.onTime;
      OnTimeCounted(w, r);
    }
  }

  /** A sample written on time is counted once its hour is rolled up. */
  lemma OnTimeCounted(w: World, r: Sample)
    requires RolledAgree(w) && r in w.onTime && Base(w) <= Bucket(r.at) < Mark(w)
    ensures Counted(w, r)
  {
    var h := Bucket(r.at);
    BucketOfHour(r.at, h);
    RowsMembers(w.onTime, r.agent, h, r);
    assert Agrees(w.tiers.hourly, Samples(w.onTime), Key(r.agent, h));
  }
}
