/**
  Where the first hourly run starts, and which samples it leaves out: the start is cut to the
  hour, while the query compares texts, so a fraction in the start's own second falls before it.
 */
module FirstRun {
  import opened Sequences
  import opened Timestamps
  import opened RawSamples
  import opened Tiers
  import opened HistoryStore
  import opened TierRuns

  /** The first run leaves out what lies before its look-back, and what has a fraction in its start's first second. */
  lemma LeftOutIff(raw: seq<Sample>, end: nat, r: Sample)
    requires r in raw
    ensures var first := FirstHour(raw, None, end);
      Bucket(r.at) < first <==> r.at.sec < (end - 24) * 3600 || InStartSecond(r.at, first)
  {
    EarliestIsLeast(raw, r);
    CountedBefore(r.at, FirstHour(raw, None, end));
  }

  /** If all samples lie within the look-back, the first run starts before them exactly if none is in that second. */
  lemma StartsBeforeAllIff(raw: seq<Sample>, end: nat)
    requires forall r | r in raw :: (end - 24) * 3600 <= r.at.sec
    ensures var first := FirstHour(raw, None, end);
      (forall r | r in raw :: first <= Bucket(r.at)) <==> (forall r | r in raw :: !InStartSecond(r.at, first))
  {
    forall r | r in raw
      ensures Bucket(r.at) < FirstHour(raw, None, end) <==> InStartSecond(r.at, FirstHour(raw, None, end))
    {
      LeftOutIff(raw, end, r);
    }
  }

  lemma CountedFromBase(w: World, r: Sample)
    requires RolledAgree(w) && Fitting(w) && !w.early && r in w.onTime && Bucket(r.at) < Mark(w)
    ensures Counted(w, r) <==> Base(w) <= Bucket(r.at)
  {
    if Base(w) <= Bucket(r.at) {
      OnTimeCounted(w, r);
    }
  }

  /**
    After any history in which no run was interrupted before the first completed one, a sample
    written on time in an hour before the mark is counted exactly if it neither lies before the
    first start nor has a fraction in the start's first second.
   */
  lemma CountedIff(days: nat, ops: seq<Op>, r: Sample)
    requires days >= 1 && Brisk(ops)
    requires var w := Exec(days, ops); !w.early && r in w.onTime && Bucket(r.at) < Mark(w)
    ensures var w := Exec(days, ops);
      Counted(w, r) <==> Base(w) * 3600 <= r.at.sec && !InStartSecond(r.at, Base(w))
  {
    var w := Exec(days, ops);
    HistoryInv(days, ops);
    CountedFromBase(w, r);
    CountedBefore(r.at, Base(w));
  }

  /**
    The first completed run counts exactly the samples of completed hours that lie within its
    look-back and have no fraction in the first second of the hour it starts at.
   */
  lemma FirstRunCounts(days: nat, ops: seq<Op>, now: Stamp, r: Sample)
    requires days >= 1 && Brisk(ops) && NotAfter(Exec(days, ops).clock, now)
    requires var w := Exec(days, ops); w.base.None? && !w.early && r in w.tiers.raw && Bucket(r.at) < HourOf(now)
    ensures var w := Apply(days, Exec(days, ops), HourlyRun(now));
      Counted(w, r) <==> (HourOf(now) - 24) * 3600 <= r.at.sec && !InStartSecond(r.at, Base(w))
  {
    var before := Exec(days, ops);
    var w := AfterRun(before, now);
    HistoryInv(days, ops);
    RunKeeps(before, now);
    LeftOutIff(before.tiers.raw, HourOf(now), r);
    if Bucket(r.at) >= 0 {
      OnTimeAtFirst(before, r);
      CountedFromBase(w, r);
    }
  }

  lemma OnTimeAtFirst(w: World, r: Sample)
    requires PendingAgree(w) && MarksInOrder(w) && w.base.None? && r in w.tiers.raw && Bucket(r.at) >= 0
    ensures r in w.onTime
  {
    var h := Bucket(r.at);
    BucketOfHour(r.at, h);
    RowsMembers(w.tiers.raw, r.agent, h, r);
    RowsMembers(w.onTime, r.agent, h, r);
  }

  lemma NoHours(w: World, row: Sample)
    requires w.onTime == [row] && Bucket(row.at) < Base(w)
    requires w.tiers.hourly == Stretch(Samples(w.onTime), Base(w), Mark(w))
    ensures w.tiers.hourly == map[]
  {
    forall k: Key ensures k !in w.tiers.hourly {
      StretchAt(Samples(w.onTime), Base(w), Mark(w), k);
      BucketOfHour(row.at, k.slot);
      RowsAppended([], row, k.agent, k.slot);
      assert [] + [row] == [row];
    }
    TablesEqual(w.tiers.hourly, map[]);
  }

  lemma ThreeSteps(days: nat, ops: seq<Op>, a: Op, b: Op, c: Op)
    requires ops == [a, b, c]
    ensures Exec(days, ops) == Apply(days, Apply(days, Apply(days, START, a), b), c)
  {
    assert ops[..2] == [a, b] && ops[..2][..1] == [a] && ops[..2][..1][..0] == [];
    assert Exec(days, ops[..2][..1]) == Apply(days, START, a);
    assert Exec(days, ops[..2]) == Apply(days, Exec(days, ops[..2][..1]), b);
  }

  lemma FirstRunOverOne(row: Sample, now: Stamp)
    requires row.at.sec / 3600 < HourOf(now) <= row.at.sec / 3600 + 24
    ensures var w := AfterRun(AfterWrite(START, row), now);
      w.base == Some(row.at.sec / 3600) && w.onTime == [row] && w.late == [] && Mark(w) == HourOf(now)
  {
    assert [row][..0] == [];
    assert Earliest([row]) == Some(row.at);
  }

  lemma LostSteps(days: nat, row: Sample, now: Stamp, next: Stamp, later: Stamp)
    requires NotAfter(now, next) && NotAfter(next, later)
    ensures Apply(days, Apply(days, Apply(days, START, Write(row)), HourlyRun(now)), Retention(next, later))
         == AfterRetention(AfterRun(AfterWrite(START, row), now), next, later, Cutoff(later, days))
  {
    var written := AfterWrite(START, row);
    assert Apply(days, START, Write(row)) == written;
    assert Apply(days, written, HourlyRun(now)) == AfterRun(written, now);
  }

  lemma LostWorld(days: nat, ops: seq<Op>, row: Sample, now: Stamp, next: Stamp, later: Stamp)
    requires ops == [Write(row), HourlyRun(now), Retention(next, later)]
    requires NotAfter(now, next) && NotAfter(next, later)
    ensures Exec(days, ops)
         == AfterRetention(AfterRun(AfterWrite(START, row), now), next, later, Cutoff(later, days))
  {
    ThreeSteps(days, ops, Write(row), HourlyRun(now), Retention(next, later));
    LostSteps(days, row, now, next, later);
  }

  lemma LostInRetention(rolled: World, row: Sample, next: Stamp, later: Stamp, cutoff: Option<Stamp>)
    requires var w := AfterRetention(rolled, next, later, cutoff);
      w.tiers.hourly == Stretch(Samples(w.onTime), Base(w), Mark(w))
    requires rolled.onTime == [row] && rolled.base.Some? && InStartSecond(row.at, Base(rolled))
    requires Expires(row.at, cutoff)
    ensures var w := AfterRetention(rolled, next, later, cutoff);
      && row !in w.tiers.raw && w.tiers.hourly == map[] && !Counted(w, row)
      && w.onTime == rolled.onTime && w.late == rolled.late && w.base == rolled.base && Mark(w) == HourOf(next)
  {
    var w := AfterRetention(rolled, next, later, cutoff);
    CountedBefore(row.at, Base(w));
    NoHours(w, row);
    KeptMembers(AfterRun(rolled, next).tiers.raw, cutoff, row);
  }

  lemma LostWhole(days: nat, ops: seq<Op>, row: Sample, now: Stamp, next: Stamp, later: Stamp)
    requires days >= 1 && ops == [Write(row), HourlyRun(now), Retention(next, later)]
    requires BriskOp(Retention(next, later))
    ensures var w := Exec(days, ops); w.tiers.hourly == Stretch(Samples(w.onTime), Base(w), Mark(w))
  {
    SuccessfulRunsEqualOne(days, ops);
  }

  lemma LostAtLast(days: nat, w: World, row: Sample, now: Stamp, next: Stamp, later: Stamp)
    requires w == AfterRetention(AfterRun(AfterWrite(START, row), now), next, later, Cutoff(later, days))
    requires w.tiers.hourly == Stretch(Samples(w.onTime), Base(w), Mark(w))
    requires InStartSecond(row.at, row.at.sec / 3600)
    requires row.at.sec / 3600 < HourOf(now) <= row.at.sec / 3600 + 24
    requires NotAfter(now, next) && !Retained(row.at, later, days)
    ensures HourBound(Base(w)).sec == row.at.sec && Base(w) < Mark(w)
    ensures row in w.onTime && w.late == [] && row !in w.tiers.raw
    ensures w.tiers.hourly == map[] && !Counted(w, row)
  {
    FirstRunOverOne(row, now);
    HoursAdvance(now, next);
    LostInRetention(AfterRun(AfterWrite(START, row), now), row, next, later, Cutoff(later, days));
  }

  /**
    The last exception occurs: a single sample with a fraction in the first second of an hour
    sets the start of the first run to that very second, is written on time, and yet is never
    counted and at last deleted.
   */
  lemma StartSecondIsLost(days: nat, ops: seq<Op>, row: Sample, now: Stamp, next: Stamp, later: Stamp)
    requires days >= 1 && ops == [Write(row), HourlyRun(now), Retention(next, later)]
    requires InStartSecond(row.at, row.at.sec / 3600)
    requires row.at.sec / 3600 < HourOf(now) <= row.at.sec / 3600 + 24
    requires NotAfter(now, next) && NotAfter(next, later) && BriskOp(Retention(next, later))
    requires !Retained(row.at, later, days)
    ensures var w := Exec(days, ops);
      && HourBound(Base(w)).sec == row.at.sec && Base(w) < Mark(w)
      && row in w.onTime && w.late == [] && row !in w.tiers.raw
      && w.tiers.hourly == map[] && !Counted(w, row)
  {
    var w := Exec(days, ops);
    LostWorld(days, ops, row, now, next, later);
    LostWhole(days, ops, row, now, next, later);
    LostAtLast(days, w, row, now, next, later);
  }
}
