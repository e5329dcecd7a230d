/** The hub's history store: writes, watermarked rollups and retention over tables replaced in place. */
module HistoryStore {
  import opened Sequences
  import opened Timestamps
  import opened RawSamples
  import opened Tiers

  datatype TierState = TierState(
    raw: seq<Sample>,
    hourly: RollupTable,
    daily: RollupTable,
    hourlyMark: Option<nat>,
    dailyMark: Option<nat>)

  function HourOf(now: Stamp): nat {
    now.sec / 3600
  }

  function DayOf(now: Stamp): nat {
    now.sec / 86400
  }

  predicate NotAfter(a: Stamp, b: Stamp) {
    a.sec < b.sec || (a.sec == b.sec && a.nano <= b.nano)
  }

  function StartHour(s: TierState, now: Stamp): nat {
    FirstHour(s.raw, s.hourlyMark, HourOf(now))
  }

  function StartDay(s: TierState, now: Stamp): nat {
    FirstDay(s.hourly, s.dailyMark, DayOf(now))
  }

  /** The rows a complete hourly run writes. */
  function DueHours(s: TierState, now: Stamp): RollupTable {
    Stretch(Samples(s.raw), StartHour(s, now), HourOf(now))
  }

  function DueDays(s: TierState, now: Stamp): RollupTable {
    Stretch(Hours(s.hourly), StartDay(s, now), DayOf(now))
  }

  function AfterHourly(s: TierState, now: Stamp): TierState {
    s.(hourly := s.hourly + DueHours(s, now), hourlyMark := Some(HourOf(now)))
  }

  function AfterDaily(s: TierState, now: Stamp): TierState {
    s.(daily := s.daily + DueDays(s, now), dailyMark := Some(DayOf(now)))
  }

  /** The text of a time comes before that of the cutoff; a cutoff before the year 0 comes before all. */
  predicate Expires(t: Stamp, cutoff: Option<Stamp>) {
    cutoff.Some? && Before(t, cutoff.value)
  }

  /** DELETE ... WHERE collected_at < cutoff. */
  function Kept(raw: seq<Sample>, cutoff: Option<Stamp>): seq<Sample> {
    if raw == [] then []
    else
      var last := raw[|raw| - 1];
      Kept(raw[..|raw| - 1], cutoff) + (if Expires(last.at, cutoff) then [] else [last])
  }

  function Cutoff(now: Stamp, days: nat): Option<Stamp> {
    var age := days * 86400;
    if now.sec < age then None else Some(RawStamp(now.sec - age, now.nano))
  }

  function AfterDelete(s: TierState, cutoff: Option<Stamp>): TierState {
    s.(raw := Kept(s.raw, cutoff))
  }

  lemma {:induction false} KeptMembers(raw: seq<Sample>, cutoff: Option<Stamp>, r: Sample)
    ensures r in Kept(raw, cutoff) <==> r in raw && !Expires(r.at, cutoff)
  {
    if raw != [] {
      var n := |raw| - 1;
      KeptMembers(raw[..n], cutoff, r);
      assert raw == raw[..n] + [raw[n]];
    }
  }

  /** A time no more than so many days before a clock reading; within that very second the texts decide. */
  predicate Retained(t: Stamp, now: Stamp, days: nat) {
    var oldest := now.sec - days * 86400;
    t.sec > oldest || (t.sec == oldest && !TextLess(Tail(t.nano), Tail(now.nano)))
  }

  /** Deleting keeps exactly the samples that are not older than the retention. */
  lemma DeletesExpired(raw: seq<Sample>, now: Stamp, days: nat, r: Sample)
    ensures r in Kept(raw, Cutoff(now, days)) <==> r in raw && Retained(r.at, now, days)
  {
    KeptMembers(raw, Cutoff(now, days), r);
  }

  // ---------- How far a run has come ----------

  /** One more page, complete or not. */
  lemma StepRun(table: RollupTable, pages: seq<RollupTable>, first: nat, i: nat, some: RollupTable)
    requires Paged(pages, first) && i < |pages| && PartOf(some, pages[i])
    ensures var part := Overlay(pages[..i]);
      && (table + part) + some == table + (part + some)
      && PartOf(part + some, Overlay(pages))
      && (some == pages[i] ==> part + some == Overlay(pages[..i + 1]))
  {
    AddAssociates(table, Overlay(pages[..i]), some);
    OverlayPart(pages, first, i, some);
    assert pages[..i + 1][..i] == pages[..i];
  }

  lemma NextPage(table: RollupTable, below: Below, start: nat, slot: nat, end: nat, some: RollupTable)
    requires start <= slot < end && PartOf(some, Batch(below, slot))
    ensures var pages := Batches(QueryOf(below), start, end);
      var before := Overlay(pages[..slot - start]);
      && (table + before) + some == table + (before + some)
      && PartOf(before + some, Overlay(pages))
      && (some == Batch(below, slot) ==> before + some == Overlay(pages[..slot + 1 - start]))
  {
    QuerySlotted(below);
    BatchesPaged(QueryOf(below), start, end);
    BatchesAt(QueryOf(below), start, end, slot);
    StepRun(table, Batches(QueryOf(below), start, end), start, slot - start, some);
  }

  /** The database calls of a run over some pages: for each page a query and an upsert for each of its rows. */
  function Calls(pages: seq<RollupTable>): nat {
    if pages == [] then 0 else Calls(pages[..|pages| - 1]) + 1 + |pages[|pages| - 1]|
  }

  /** What is left of a budget of calls. */
  function Left(budget: nat, calls: nat): nat {
    if budget <= calls then 0 else budget - calls
  }

  lemma CallsOneMore(pages: seq<RollupTable>, i: nat)
    requires i < |pages|
    ensures Calls(pages[..i + 1]) == Calls(pages[..i]) + 1 + |pages[i]|
  {
    assert pages[..i + 1][..i] == pages[..i];
  }

  lemma {:induction false} CallsGrow(pages: seq<RollupTable>, i: nat)
    requires i <= |pages|
    ensures Calls(pages[..i]) <= Calls(pages)
  {
    if i < |pages| {
      var front := pages[..|pages| - 1];
      assert front[..i] == pages[..i];
      CallsGrow(front, i);
    } else {
      assert pages[..i] == pages;
    }
  }

  /** What is left after one more page, and that nothing is left in the end if nothing is left then. */
  lemma NextCalls(below: Below, start: nat, slot: nat, end: nat, total: nat)
    requires start <= slot < end
    ensures var pages := Batches(QueryOf(below), start, end);
      var before, after := Left(total, Calls(pages[..slot - start])), Left(total, Calls(pages[..slot + 1 - start]));
      && after == Left(before, 1 + |Batch(below, slot)|)
      && (after == 0 ==> Left(total, Calls(pages)) == 0)
  {
    var pages := Batches(QueryOf(below), start, end);
    BatchesAt(QueryOf(below), start, end, slot);
    CallsOneMore(pages, slot - start);
    CallsGrow(pages, slot + 1 - start);
  }

  /** Written so far: all of the batch but what is still to do. */
  ghost predicate WrittenBut(part: RollupTable, batch: RollupTable, todo: set<Key>) {
    PartOf(part, batch) && todo <= batch.Keys && part.Keys == batch.Keys - todo
  }

  lemma WriteOne(part: RollupTable, batch: RollupTable, todo: set<Key>, k: Key)
    requires WrittenBut(part, batch, todo) && k in todo
    ensures WrittenBut(part[k := batch[k]], batch, todo - {k})
  {
  }

  lemma WroteAll(part: RollupTable, batch: RollupTable)
    requires WrittenBut(part, batch, {})
    ensures part == batch
  {
  }

  lemma UpsertOne(table: RollupTable, part: RollupTable, batch: RollupTable, k: Key)
    requires k in batch
    ensures (table + part)[k := batch[k]] == table + part[k := batch[k]]
  {
  }

  lemma EmptyPart(table: RollupTable)
    ensures table + map[] == table
  {
  }

  /** The calls of a run besides reading and saving its mark. */
  function HourlyCalls(s: TierState, now: Stamp): nat {
    Calls(Batches(QueryOf(Samples(s.raw)), StartHour(s, now), HourOf(now)))
  }

  function DailyCalls(s: TierState, now: Stamp): nat {
    Calls(Batches(QueryOf(Hours(s.hourly)), StartDay(s, now), DayOf(now)))
  }

  // ---------- The store ----------

  /**
    `budget` stands for how many database calls work before one fails, so a method is
    proved for an interruption at any point.
   */
  class Store {
    const minimal: bool
    const retentionDays: nat
    var raw: seq<Sample>
    var hourly: RollupTable
    var daily: RollupTable
    var hourlyMark: Option<nat>
    var dailyMark: Option<nat>

    function View(): TierState
      reads this
    {
      TierState(raw, hourly, daily, hourlyMark, dailyMark)
    }

    /** Open on a fresh file; a retention of zero or less days means 30. */
    constructor Open(profile: string, days: int)
      ensures View() == TierState([], map[], map[], None, None)
      ensures minimal == (profile == "minimal") && retentionDays == if days <= 0 then 30 else days
    {
      minimal := profile == "minimal";
      retentionDays := if days <= 0 then 30 else days;
      raw, hourly, daily, hourlyMark, dailyMark := [], map[], map[], None, None;
    }

    /** Afterwards the row is the only one of its agent and time, and all other rows are as they were. */
    method WriteSample(row: Sample, budget: nat) returns (ok: bool)
      modifies this`raw
      ensures ok == (minimal || budget > 0)
      ensures raw == if minimal || !ok then old(raw) else Upsert(old(raw), row)
      ensures !minimal && ok ==> forall r :: r in raw <==> r == row || (r in old(raw) && !SameKey(r, row))
      ensures KeysUnique(old(raw)) ==> KeysUnique(raw)
    {
      if minimal {
        return true;
      }
      if budget == 0 {
        return false;
      }
      forall r ensures r in Upsert(raw, row) <==> r == row || (r in raw && !SameKey(r, row)) {
        UpsertMembers(raw, row, r);
      }
      if KeysUnique(raw) {
        UpsertUnique(raw, row);
      }
      raw := Upsert(raw, row);
      return true;
    }

    /** The loop over a batch: one upsert after the other, until the budget is used up. */
    method UpsertHours(batch: RollupTable, budget: nat) returns (left: nat, ghost part: RollupTable)
      modifies this`hourly
      ensures hourly == old(hourly) + part && PartOf(part, batch)
      ensures left == Left(budget, |batch|) && (left == 0 || part == batch)
    {
      left, part := budget, map[];
      var todo := batch.Keys;
      while todo != {} && left > 0
        invariant hourly == old(hourly) + part && WrittenBut(part, batch, todo)
        invariant left + |batch| == budget + |todo|
      {
        var k :| k in todo;
        left := left - 1;
        UpsertOne(old(hourly), part, batch, k);
        WriteOne(part, batch, todo, k);
        hourly := hourly[k := batch[k]];
        part := part[k := batch[k]];
        todo := todo - {k};
      }
      if todo == {} {
        WroteAll(part, batch);
      }
    }

    /** One hour: the query first, then its rows. */
    method RollupHour(hour: nat, budget: nat) returns (left: nat, ghost part: RollupTable)
      modifies this`hourly
      ensures hourly == old(hourly) + part && PartOf(part, Batch(Samples(raw), hour))
      ensures left == Left(budget, 1 + |Batch(Samples(raw), hour)|) && (left == 0 || part == Batch(Samples(raw), hour))
    {
      if budget == 0 {
        return 0, map[];
      }
      left, part := UpsertHours(Batch(Samples(raw), hour), budget - 1);
    }

    /** One pass of the loop over the hours of a run. */
    method RollupNextHour(ghost table: RollupTable, ghost pages: seq<RollupTable>, ghost start: nat, hour: nat,
                          ghost end: nat, budget: nat, ghost total: nat)
      returns (left: nat, ghost part: RollupTable)
      requires start <= hour < end && pages == Batches(QueryOf(Samples(raw)), start, end)
      requires budget == Left(total, Calls(pages[..hour - start]))
      requires hourly == table + Overlay(pages[..hour - start])
      modifies this`hourly
      ensures hourly == table + part && PartOf(part, Overlay(pages))
      ensures left == Left(total, Calls(pages[..hour + 1 - start]))
      ensures if left == 0 then Left(total, Calls(pages)) == 0 else part == Overlay(pages[..hour + 1 - start])
    {
      ghost var some;
      left, some := RollupHour(hour, budget);
      NextPage(table, Samples(raw), start, hour, end, some);
      NextCalls(Samples(raw), start, hour, end, total);
      part := Overlay(pages[..hour - start]) + some;
    }

    /** The loop over the hours of a run. */
    method RollupHours(start: nat, end: nat, budget: nat, ghost pages: seq<RollupTable>)
      returns (left: nat, ghost part: RollupTable)
      requires pages == Batches(QueryOf(Samples(raw)), start, end)
      modifies this`hourly
      ensures hourly == old(hourly) + part && PartOf(part, Overlay(pages))
      ensures left == Left(budget, Calls(pages)) && (left == 0 || part == Overlay(pages))
    {
      ghost var table := hourly;
      left, part := budget, map[];
      var hour := start;
      EmptyPart(hourly);
      assert pages[..0] == [];
      while hour < end
        invariant start <= hour && hour - start <= |pages| && raw == old(raw)
        invariant hourly == table + part && part == Overlay(pages[..hour - start])
        invariant left == Left(budget, Calls(pages[..hour - start]))
        decreases |pages| - (hour - start)
      {
        left, part := RollupNextHour(table, pages, start, hour, end, left, budget);
        if left == 0 {
          return;
        }
        hour := hour + 1;
      }
      assert pages[..hour - start] == pages;
    }

    /** Rolls up every hour from the mark to the last full hour; only a complete run moves the mark. */
    method RunHourlyRollup(now: Stamp, budget: nat) returns (ok: bool, ghost part: RollupTable)
      modifies this`hourly, this`hourlyMark
      ensures minimal ==> ok && View() == old(View())
      ensures ok && !minimal ==> View() == AfterHourly(old(View()), now)
      ensures !ok ==> PartOf(part, DueHours(old(View()), now)) && View() == old(View()).(hourly := old(hourly) + part)
      ensures ok && !minimal ==>
        hourlyMark.Some? && hourlyMark.value * 3600 <= now.sec < hourlyMark.value * 3600 + 3600
      ensures ok && !minimal ==> RolledUp(old(hourly), hourly, raw, old(StartHour(View(), now)), hourlyMark.value)
      ensures ok <==> minimal || budget >= HourlyCalls(old(View()), now) + 2
    {
      part := map[];
      if minimal {
        return true, part;
      }
      if budget == 0 {
        assert hourly == hourly + part;
        return false, part;
      }
      var end := HourOf(now);
      var start := FirstHour(raw, hourlyMark, end);
      var left;
      left, part := RollupHours(start, end, budget - 1, Batches(QueryOf(Samples(raw)), start, end));
      if left == 0 {
        return false, part;
      }
      StretchRollsUp(old(hourly), raw, start, end);
      hourlyMark := Some(end);
      return true, part;
    }

    /** The loop over a batch: one upsert after the other, until the budget is used up. */
    method UpsertDays(batch: RollupTable, budget: nat) returns (left: nat, ghost part: RollupTable)
      modifies this`daily
      ensures daily == old(daily) + part && PartOf(part, batch)
      ensures left == Left(budget, |batch|) && (left == 0 || part == batch)
    {
      left, part := budget, map[];
      var todo := batch.Keys;
      while todo != {} && left > 0
        invariant daily == old(daily) + part && WrittenBut(part, batch, todo)
        invariant left + |batch| == budget + |todo|
      {
        var k :| k in todo;
        left := left - 1;
        UpsertOne(old(daily), part, batch, k);
        WriteOne(part, batch, todo, k);
        daily := daily[k := batch[k]];
        part := part[k := batch[k]];
        todo := todo - {k};
      }
      if todo == {} {
        WroteAll(part, batch);
      }
    }

    /** One day: the query first, then its rows. */
    method RollupDay(day: nat, budget: nat) returns (left: nat, ghost part: RollupTable)
      modifies this`daily
      ensures daily == old(daily) + part && PartOf(part, Batch(Hours(hourly), day))
      ensures left == Left(budget, 1 + |Batch(Hours(hourly), day)|) && (left == 0 || part == Batch(Hours(hourly), day))
    {
      if budget == 0 {
        return 0, map[];
      }
      left, part := UpsertDays(Batch(Hours(hourly), day), budget - 1);
    }

    /** One pass of the loop over the days of a run. */
    method RollupNextDay(ghost table: RollupTable, ghost pages: seq<RollupTable>, ghost start: nat, day: nat,
                         ghost end: nat, budget: nat, ghost total: nat)
      returns (left: nat, ghost part: RollupTable)
      requires start <= day < end && pages == Batches(QueryOf(Hours(hourly)), start, end)
      requires budget == Left(total, Calls(pages[..day - start]))
      requires daily == table + Overlay(pages[..day - start])
      modifies this`daily
      ensures daily == table + part && PartOf(part, Overlay(pages))
      ensures left == Left(total, Calls(pages[..day + 1 - start]))
      ensures if left == 0 then Left(total, Calls(pages)) == 0 else part == Overlay(pages[..day + 1 - start])
    {
      ghost var some;
      left, some := RollupDay(day, budget);
      NextPage(table, Hours(hourly), start, day, end, some);
      NextCalls(Hours(hourly), start, day, end, total);
      part := Overlay(pages[..day - start]) + some;
    }

    /** The loop over the days of a run. */
    method RollupDays(start: nat, end: nat, budget: nat, ghost pages: seq<RollupTable>)
      returns (left: nat, ghost part: RollupTable)
      requires pages == Batches(QueryOf(Hours(hourly)), start, end)
      modifies this`daily
      ensures daily == old(daily) + part && PartOf(part, Overlay(pages))
      ensures left == Left(budget, Calls(pages)) && (left == 0 || part == Overlay(pages))
    {
      ghost var table := daily;
      left, part := budget, map[];
      var day := start;
      EmptyPart(daily);
      assert pages[..0] == [];
      while day < end
        invariant start <= day && day - start <= |pages| && hourly == old(hourly)
        invariant daily == table + part && part == Overlay(pages[..day - start])
        invariant left == Left(budget, Calls(pages[..day - start]))
        decreases |pages| - (day - start)
      {
        left, part := RollupNextDay(table, pages, start, day, end, left, budget);
        if left == 0 {
          return;
        }
        day := day + 1;
      }
      assert pages[..day - start] == pages;
    }

    /** The same for days, from the hourly table. */
    method RunDailyRollup(now: Stamp, budget: nat) returns (ok: bool, ghost part: RollupTable)
      modifies this`daily, this`dailyMark
      ensures minimal ==> ok && View() == old(View())
      ensures ok && !minimal ==> View() == AfterDaily(old(View()), now)
      ensures !ok ==> PartOf(part, DueDays(old(View()), now)) && View() == old(View()).(daily := old(daily) + part)
      ensures ok && !minimal ==>
        dailyMark.Some? && dailyMark.value * 86400 <= now.sec < dailyMark.value * 86400 + 86400
      ensures ok <==> minimal || budget >= DailyCalls(old(View()), now) + 2
    {
      part := map[];
      if minimal {
        return true, part;
      }
      if budget == 0 {
        assert daily == daily + part;
        return false, part;
      }
      var end := DayOf(now);
      var start := FirstDay(hourly, dailyMark, end);
      var left;
      left, part := RollupDays(start, end, budget - 1, Batches(QueryOf(Hours(hourly)), start, end));
      if left == 0 {
        return false, part;
      }
      dailyMark := Some(end);
      return true, part;
    }

    /** Rolls up, then deletes what has expired by a second clock reading; nothing is deleted if the rollup failed. */
    method RunRetention(now: Stamp, later: Stamp, budget: nat, deleteFails: bool)
      returns (ok: bool, rolled: bool, ghost part: RollupTable)
      modifies this
      ensures ok ==> rolled || retentionDays == 0
      ensures retentionDays == 0 ==> View() == old(View())
      ensures retentionDays > 0 && !rolled ==>
        !ok && PartOf(part, DueHours(old(View()), now)) && View() == old(View()).(hourly := old(hourly) + part)
      ensures retentionDays > 0 && rolled ==>
        var s := if minimal then old(View()) else AfterHourly(old(View()), now);
        View() == if ok then AfterDelete(s, Cutoff(later, retentionDays)) else s
      ensures ok && retentionDays > 0 ==>
        var oldest := later.sec - retentionDays * 86400;
        forall r :: r in raw <==> (
          && r in old(raw)
          && (r.at.sec > oldest || (r.at.sec == oldest && !TextLess(Tail(r.at.nano), Tail(later.nano)))))
    {
      rolled, part := false, map[];
      if retentionDays == 0 {
        return true, rolled, part;
      }
      rolled, part := RunHourlyRollup(now, budget);
      if !rolled || deleteFails {
        return false, rolled, part;
      }
      forall r ensures r in Kept(raw, Cutoff(later, retentionDays))
        <==> r in raw && Retained(r.at, later, retentionDays)
      {
        DeletesExpired(raw, later, retentionDays, r);
      }
      raw := Kept(raw, Cutoff(later, retentionDays));
      return true, rolled, part;
    }
  }

  // ---------- Crash recovery ----------

  lemma RewriteCovers(table: RollupTable, part: RollupTable, due: RollupTable)
    requires PartOf(part, due)
    ensures (table + part) + due == table + due
  {
  }

  /**
    A run stopped anywhere leaves the mark alone, and over unchanged samples a later
    complete run to the same end gives the table and the mark of an uninterrupted one.
   */
  lemma HourlyCrashRecovery(s: TierState, now: Stamp, again: Stamp, part: RollupTable)
    requires PartOf(part, DueHours(s, now)) && HourOf(again) == HourOf(now)
    ensures var crashed := s.(hourly := s.hourly + part);
      && crashed.hourlyMark == s.hourlyMark
      && AfterHourly(crashed, again) == AfterHourly(s, now)
  {
    RewriteCovers(s.hourly, part, DueHours(s, now));
  }

  lemma DailyCrashRecovery(s: TierState, now: Stamp, again: Stamp, part: RollupTable)
    requires PartOf(part, DueDays(s, now)) && DayOf(again) == DayOf(now)
    ensures var crashed := s.(daily := s.daily + part);
      && crashed.dailyMark == s.dailyMark
      && AfterDaily(crashed, again) == AfterDaily(s, now)
  {
  }

  /** With a saved mark, even a later run to a later end repairs an interrupted one. */
  lemma CrashThenLaterRun(s: TierState, now: Stamp, later: Stamp, part: RollupTable)
    requires s.hourlyMark.Some? && PartOf(part, DueHours(s, now)) && NotAfter(now, later)
    ensures AfterHourly(s.(hourly := s.hourly + part), later) == AfterHourly(s, later)
  {
    var mark := s.hourlyMark.value;
    var due := DueHours(s, later);
    forall k | k in part ensures k in due && part[k] == due[k] {
      StretchAt(Samples(s.raw), mark, HourOf(now), k);
      StretchAt(Samples(s.raw), mark, HourOf(later), k);
      HoursAdvance(now, later);
    }
    RewriteCovers(s.hourly, part, due);
  }

  lemma HoursAdvance(now: Stamp, later: Stamp)
    requires NotAfter(now, later)
    ensures HourOf(now) <= HourOf(later)
  {
  }
}
