/** What a daily row says about the raw samples two tiers below. */
module TwoTier {
  import opened Timestamps
  import opened RawSamples
  import opened Tiers
  import opened HistoryStore
  import opened TierRuns

  /** The samples of one agent, one page an hour. */
  function Pages(raw: seq<Sample>, agent: string, first: nat, end: nat): seq<seq<Sample>>
    decreases end
  {
    if end <= first then [] else Pages(raw, agent, first, end - 1) + [Rows(raw, agent, end - 1)]
  }

  function Flat(pages: seq<seq<Sample>>): seq<Sample> {
    if pages == [] then [] else Flat(pages[..|pages| - 1]) + pages[|pages| - 1]
  }

  /** The samples of one agent over a range of hours. */
  function Window(raw: seq<Sample>, agent: string, first: nat, end: nat): seq<Sample> {
    Flat(Pages(raw, agent, first, end))
  }

  lemma WindowPush(raw: seq<Sample>, agent: string, first: nat, hour: nat)
    requires first <= hour
    ensures Window(raw, agent, first, hour + 1) == Window(raw, agent, first, hour) + Rows(raw, agent, hour)
  {
  }

  lemma {:induction false} WindowMembers(raw: seq<Sample>, agent: string, first: nat, end: nat, r: Sample)
    ensures r in Window(raw, agent, first, end) <==> r in raw && r.agent == agent && first <= Bucket(r.at) < end
    decreases end
  {
    if first < end {
      var hour := end - 1;
      WindowMembers(raw, agent, first, hour, r);
      WindowPush(raw, agent, first, hour);
      HourMembers(raw, agent, hour, r);
    }
  }

  lemma {:induction false} WindowSize(raw: seq<Sample>, agent: string, first: nat, end: nat)
    ensures |Window(raw, agent, first, end)| == SamplesIn(raw, agent, first, end)
    decreases end
  {
    if first < end {
      var hour := end - 1;
      WindowSize(raw, agent, first, hour);
      WindowPush(raw, agent, first, hour);
      SamplesInHour(raw, agent, first, hour);
    } else {
      NoSamplesIn(raw, agent, first, end);
    }
  }

  // ---------- Sums, maxima and means ----------

  lemma {:induction false} SumConcat(a: seq<real>, b: seq<real>)
    ensures Sum(a + b) == Sum(a) + Sum(b)
  {
    if b == [] {
      assert a + b == a;
    } else {
      SumConcat(a, b[..|b| - 1]);
      assert (a + b)[..|a + b| - 1] == a + b[..|b| - 1];
    }
  }

  lemma {:induction false} CpuConcat(a: seq<Sample>, b: seq<Sample>)
    ensures Cpu(a + b) == Cpu(a) + Cpu(b)
  {
    if b == [] {
      assert a + b == a;
    } else {
      CpuConcat(a, b[..|b| - 1]);
      assert (a + b)[..|a + b| - 1] == a + b[..|b| - 1];
    }
  }

  ghost predicate Within(lo: real, hi: real, xs: seq<real>) {
    forall x | x in xs :: lo <= x <= hi
  }

  lemma WithinConcat(a: seq<real>, b: seq<real>, lo: real, hi: real)
    ensures Within(lo, hi, a + b) <==> Within(lo, hi, a) && Within(lo, hi, b)
  {
    if Within(lo, hi, a + b) {
      forall x | x in a || x in b ensures lo <= x <= hi {
        assert x in a + b;
      }
    }
  }

  lemma {:induction false} SumWithin(xs: seq<real>, lo: real, hi: real)
    requires Within(lo, hi, xs)
    ensures lo * |xs| as real <= Sum(xs) <= hi * |xs| as real
  {
    if xs != [] {
      var n := |xs| - 1;
      assert xs == xs[..n] + [xs[n]];
      WithinConcat(xs[..n], [xs[n]], lo, hi);
      SumWithin(xs[..n], lo, hi);
      assert xs[n] in xs;
      OneMore(lo, n);
      OneMore(hi, n);
    }
  }

  lemma OneMore(a: real, n: nat)
    ensures a * (n + 1) as real == a * n as real + a
  {
  }

  /** A mean of numbers in a range lies in the range. */
  lemma AvgWithin(xs: seq<real>, lo: real, hi: real)
    requires xs != [] && Within(lo, hi, xs)
    ensures lo <= Avg(xs) <= hi
  {
    SumWithin(xs, lo, hi);
    Divide(Sum(xs), |xs| as real, lo, hi);
  }

  lemma Divide(s: real, n: real, lo: real, hi: real)
    requires n > 0.0 && lo * n <= s <= hi * n
    ensures lo <= s / n <= hi
  {
  }

  // ---------- Hours of a window ----------

  /** The row that a table has for an hour of an agent, if any. */
  function CellRow(table: RollupTable, agent: string, hour: nat): seq<Rollup> {
    var k := Key(agent, hour);
    if k in table then [table[k]] else []
  }

  /** What an hour's samples make of it: one row, or none. */
  function RowOf(rows: seq<Sample>): seq<Rollup> {
    if rows == [] then [] else [HourRow(rows)]
  }

  /** The hourly table agrees with the samples over a range of hours of one agent. */
  predicate AgreesOver(table: RollupTable, raw: seq<Sample>, agent: string, first: nat, end: nat)
    decreases end
  {
    first < end ==>
      && AgreesOver(table, raw, agent, first, end - 1)
      && CellRow(table, agent, end - 1) == RowOf(Rows(raw, agent, end - 1))
  }

  lemma ColumnsAppend(rows: seq<Rollup>, row: Rollup)
    ensures CpuAvgs(rows + [row]) == CpuAvgs(rows) + [row.cpuAvg]
    ensures CpuMaxes(rows + [row]) == CpuMaxes(rows) + [row.cpuMax]
    ensures Counts(rows + [row]) == Counts(rows) + row.count
  {
  }

  /** The averages of groups of numbers stay in their range and the maxima of the groups dominate them. */
  ghost predicate Summarizes(avgs: seq<real>, maxes: seq<real>, xs: seq<real>, lo: real, hi: real) {
    && Within(lo, hi, avgs)
    && (forall m | m in maxes :: m in xs)
    && (forall x | x in xs :: Dominated(x, maxes))
  }

  ghost predicate Dominated(x: real, maxes: seq<real>) {
    exists m :: m in maxes && x <= m
  }

  lemma SummaryGrows(avgs: seq<real>, maxes: seq<real>, xs: seq<real>, ys: seq<real>, lo: real, hi: real)
    requires Summarizes(avgs, maxes, xs, lo, hi) && ys != [] && Within(lo, hi, ys)
    ensures Summarizes(avgs + [Avg(ys)], maxes + [Max(ys)], xs + ys, lo, hi)
  {
    AvgWithin(ys, lo, hi);
    MaxIsMax(ys);
    forall x | x in xs + ys ensures Dominated(x, maxes + [Max(ys)]) {
      if x in xs {
        var m :| m in maxes && x <= m;
        assert m in maxes + [Max(ys)];
      } else {
        assert Max(ys) in maxes + [Max(ys)];
      }
    }
  }

  /** Hourly rows summarize samples: in number, in range and in maximum. */
  ghost predicate Matched(hours: seq<Rollup>, samples: seq<Sample>, lo: real, hi: real) {
    && Counts(hours) == |samples|
    && (hours == [] <==> samples == [])
    && Summarizes(CpuAvgs(hours), CpuMaxes(hours), Cpu(samples), lo, hi)
  }

  lemma MatchedGrows(hours: seq<Rollup>, samples: seq<Sample>, rows: seq<Sample>, lo: real, hi: real)
    requires Matched(hours, samples, lo, hi) && Within(lo, hi, Cpu(rows))
    ensures Matched(hours + RowOf(rows), samples + rows, lo, hi)
  {
    if rows == [] {
      assert samples + rows == samples && hours + RowOf(rows) == hours;
    } else {
      ColumnsAppend(hours, HourRow(rows));
      CpuConcat(samples, rows);
      SummaryGrows(CpuAvgs(hours), CpuMaxes(hours), Cpu(samples), Cpu(rows), lo, hi);
    }
  }

  /** The hourly rows of some pages of samples. */
  function Rolled(pages: seq<seq<Sample>>): seq<Rollup> {
    if pages == [] then [] else Rolled(pages[..|pages| - 1]) + RowOf(pages[|pages| - 1])
  }

  lemma RolledOneMore(table: RollupTable, raw: seq<Sample>, agent: string, first: nat, hour: nat)
    requires first <= hour && CellRow(table, agent, hour) == RowOf(Rows(raw, agent, hour))
    requires HourRows(table, agent, first, hour) == Rolled(Pages(raw, agent, first, hour))
    ensures HourRows(table, agent, first, hour + 1) == Rolled(Pages(raw, agent, first, hour + 1))
  {
  }

  /** A table that agrees with the samples holds the rows of their pages. */
  lemma {:induction false} HourRowsRolled(table: RollupTable, raw: seq<Sample>, agent: string, first: nat, end: nat)
    requires AgreesOver(table, raw, agent, first, end)
    ensures HourRows(table, agent, first, end) == Rolled(Pages(raw, agent, first, end))
    decreases end
  {
    if first < end {
      var hour := end - 1;
      HourRowsRolled(table, raw, agent, first, hour);
      RolledOneMore(table, raw, agent, first, hour);
    }
  }

  /** The hourly rows of pages of samples summarize the samples. */
  lemma {:induction false} PagesMatched(pages: seq<seq<Sample>>, lo: real, hi: real)
    requires Within(lo, hi, Cpu(Flat(pages)))
    ensures Matched(Rolled(pages), Flat(pages), lo, hi)
  {
    if pages != [] {
      var front, page := pages[..|pages| - 1], pages[|pages| - 1];
      CpuConcat(Flat(front), page);
      WithinConcat(Cpu(Flat(front)), Cpu(page), lo, hi);
      PagesMatched(front, lo, hi);
      MatchedGrows(Rolled(front), Flat(front), page, lo, hi);
    }
  }

  function Scaled(size: real, sum: real): real {
    size * sum
  }

  /** Averages over groups of one size add up in proportion to the grouped numbers. */
  ghost predicate Proportional(avgs: seq<real>, xs: seq<real>, size: nat) {
    |xs| == size * |avgs| && Sum(xs) == Scaled(size as real, Sum(avgs))
  }

  lemma SizesGrow(avgs: seq<real>, xs: seq<real>, avg: real, ys: seq<real>, size: nat)
    requires |xs| == size * |avgs| && |ys| == size
    ensures |xs + ys| == size * |avgs + [avg]|
  {
  }

  lemma AddGroup(size: real, sum: real, total: real, group: real, avg: real, sum': real, total': real)
    requires total == Scaled(size, sum) && group == Scaled(size, avg) && sum' == sum + avg && total' == total + group
    ensures total' == Scaled(size, sum')
  {
  }

  lemma AvgTimesSize(xs: seq<real>)
    requires xs != []
    ensures Sum(xs) == Scaled(|xs| as real, Avg(xs))
  {
  }

  lemma SumsGrow(avgs: seq<real>, xs: seq<real>, ys: seq<real>)
    requires ys != [] && Sum(xs) == Scaled(|ys| as real, Sum(avgs))
    ensures Sum(xs + ys) == Scaled(|ys| as real, Sum(avgs + [Avg(ys)]))
  {
    var avg := Avg(ys);
    AvgTimesSize(ys);
    SumConcat(xs, ys);
    SumPush(avgs, avg);
    AddGroup(|ys| as real, Sum(avgs), Sum(xs), Sum(ys), avg, Sum(avgs + [avg]), Sum(xs + ys));
  }

  lemma ProportionGrows(avgs: seq<real>, xs: seq<real>, ys: seq<real>, size: nat)
    requires Proportional(avgs, xs, size) && ys != [] && |ys| == size
    ensures Proportional(avgs + [Avg(ys)], xs + ys, size)
  {
    SizesGrow(avgs, xs, Avg(ys), ys, size);
    SumsGrow(avgs, xs, ys);
  }

  /** Groups of one size: the mean of the means is the mean. */
  lemma MeanOfMeans(avgs: seq<real>, xs: seq<real>, size: nat)
    requires Proportional(avgs, xs, size) && avgs != [] && size > 0
    ensures xs != [] && Avg(avgs) == Avg(xs)
  {
  }

  ghost predicate SameCounts(hours: seq<Rollup>, size: nat) {
    forall row | row in hours :: row.count == size
  }

  lemma EqualHourGrows(hours: seq<Rollup>, samples: seq<Sample>, rows: seq<Sample>, size: nat)
    requires Proportional(CpuAvgs(hours), Cpu(samples), size)
    requires rows != [] ==> |rows| == size
    ensures Proportional(CpuAvgs(hours + RowOf(rows)), Cpu(samples + rows), size)
  {
    if rows == [] {
      assert samples + rows == samples && hours + RowOf(rows) == hours;
    } else {
      CpuConcat(samples, rows);
      ColumnsAppend(hours, HourRow(rows));
      ProportionGrows(CpuAvgs(hours), Cpu(samples), Cpu(rows), size);
    }
  }

  lemma {:induction false} EqualHours(pages: seq<seq<Sample>>, size: nat)
    requires SameCounts(Rolled(pages), size)
    ensures Proportional(CpuAvgs(Rolled(pages)), Cpu(Flat(pages)), size)
  {
    if pages != [] {
      var front, page := pages[..|pages| - 1], pages[|pages| - 1];
      CountsSplit(Rolled(front), page, size);
      EqualHours(front, size);
      EqualHourGrows(Rolled(front), Flat(front), page, size);
    }
  }

  lemma CountsSplit(hours: seq<Rollup>, rows: seq<Sample>, size: nat)
    requires SameCounts(hours + RowOf(rows), size)
    ensures SameCounts(hours, size) && (rows != [] ==> |rows| == size)
  {
  }

  lemma SameMax(avgs: seq<real>, maxes: seq<real>, xs: seq<real>, lo: real, hi: real)
    requires Summarizes(avgs, maxes, xs, lo, hi) && xs != [] && maxes != []
    ensures Max(maxes) == Max(xs)
  {
    MaxIsMax(maxes);
    MaxIsMax(xs);
    assert Dominated(Max(xs), maxes);
  }

  /**
    What a daily average promises: it is the plain mean of the hourly averages, lies between
    the bounds of the samples' numbers, and is their mean when all hours count the same.
   */
  ghost predicate AverageDescribes(avg: real, means: seq<real>, xs: seq<real>, hours: seq<Rollup>) {
    && xs != [] && IsMean(avg, |means|, Sum(means))
    && (forall lo, hi | Within(lo, hi, xs) :: lo <= avg <= hi)
    && (forall size | SameCounts(hours, size) :: avg == Avg(xs))
  }

  /** What a daily row promises about the hourly rows and the samples beneath it. */
  ghost predicate Describes(row: Rollup, hours: seq<Rollup>, samples: seq<Sample>) {
    && samples != []
    && row.count == |samples|
    && IsMax(row.cpuMax, Cpu(samples))
    && AverageDescribes(row.cpuAvg, CpuAvgs(hours), Cpu(samples), hours)
    && AverageDescribes(row.usedAvg, UsedAvgs(hours), Used(samples), hours)
    && AverageDescribes(row.totalAvg, TotalAvgs(hours), Total(samples), hours)
  }

  lemma DayRowColumns(hours: seq<Rollup>)
    requires hours != []
    ensures DayRow(hours).count == Counts(hours)
    ensures DayRow(hours).cpuAvg == Avg(CpuAvgs(hours))
    ensures DayRow(hours).cpuMax == Max(CpuMaxes(hours))
    ensures DayRow(hours).usedAvg == Avg(UsedAvgs(hours))
    ensures DayRow(hours).totalAvg == Avg(TotalAvgs(hours))
  {
  }

  /** The average of the hourly processor loads of pages of samples describes theirs. */
  lemma CpuDescribes(pages: seq<seq<Sample>>)
    requires Flat(pages) != []
    ensures Rolled(pages) != []
    ensures AverageDescribes(Avg(CpuAvgs(Rolled(pages))), CpuAvgs(Rolled(pages)), Cpu(Flat(pages)), Rolled(pages))
  {
    var hours, xs := Rolled(pages), Cpu(Flat(pages));
    var avgs := CpuAvgs(hours);
    PagesMatched(pages, LowerBound(xs), UpperBound(xs));
    MeanTrue(Avg(avgs), avgs, |avgs|, Sum(avgs));
    forall lo, hi | Within(lo, hi, xs) ensures lo <= Avg(avgs) <= hi {
      PagesMatched(pages, lo, hi);
      AvgWithin(avgs, lo, hi);
    }
    forall size | SameCounts(hours, size) ensures Avg(avgs) == Avg(xs) {
      EqualHours(pages, size);
      NonZero(size, |avgs|, |xs|);
      MeanOfMeans(avgs, xs, size);
    }
  }

  // ---------- The memory columns: the same with their numbers in the place of the load ----------

  /** Samples with another number in the place of the processor load. */
  function InPlace(rows: seq<Sample>, f: Sample -> real): (out: seq<Sample>)
    ensures |out| == |rows|
  {
    if rows == [] then [] else InPlace(rows[..|rows| - 1], f) + [rows[|rows| - 1].(cpu := f(rows[|rows| - 1]))]
  }

  function AllInPlace(pages: seq<seq<Sample>>, f: Sample -> real): (out: seq<seq<Sample>>)
    ensures |out| == |pages|
  {
    if pages == [] then [] else AllInPlace(pages[..|pages| - 1], f) + [InPlace(pages[|pages| - 1], f)]
  }

  lemma {:induction false} UsedInPlace(rows: seq<Sample>)
    ensures Cpu(InPlace(rows, UsedOf)) == Used(rows)
  {
    if rows != [] {
      UsedInPlace(rows[..|rows| - 1]);
    }
  }

  lemma {:induction false} TotalInPlace(rows: seq<Sample>)
    ensures Cpu(InPlace(rows, TotalOf)) == Total(rows)
  {
    if rows != [] {
      TotalInPlace(rows[..|rows| - 1]);
    }
  }

  lemma {:induction false} InPlaceConcat(a: seq<Sample>, b: seq<Sample>, f: Sample -> real)
    ensures InPlace(a + b, f) == InPlace(a, f) + InPlace(b, f)
  {
    if b == [] {
      assert a + b == a;
    } else {
      InPlaceConcat(a, b[..|b| - 1], f);
      assert (a + b)[..|a + b| - 1] == a + b[..|b| - 1];
    }
  }

  lemma {:induction false} FlatInPlace(pages: seq<seq<Sample>>, f: Sample -> real)
    ensures Flat(AllInPlace(pages, f)) == InPlace(Flat(pages), f)
  {
    if pages != [] {
      var front, page := pages[..|pages| - 1], pages[|pages| - 1];
      FlatInPlace(front, f);
      InPlaceConcat(Flat(front), page, f);
    }
  }

  /** The same hours with their number of samples, and so with the same sizes. */
  ghost predicate SameSizes(a: seq<Rollup>, b: seq<Rollup>) {
    |a| == |b| && forall i | 0 <= i < |a| :: a[i].count == b[i].count
  }

  lemma {:induction false} RolledInPlace(pages: seq<seq<Sample>>, f: Sample -> real)
    ensures SameSizes(Rolled(AllInPlace(pages, f)), Rolled(pages))
  {
    if pages != [] {
      var front, page := pages[..|pages| - 1], pages[|pages| - 1];
      assert pages == front + [page];
      RolledInPlace(front, f);
      RolledPush(front, page, f);
      RolledPush(AllInPlace(front, f), InPlace(page, f), f);
      SizesPush(Rolled(AllInPlace(front, f)), Rolled(front), page, f);
    }
  }

  lemma SizesPush(a: seq<Rollup>, b: seq<Rollup>, page: seq<Sample>, f: Sample -> real)
    requires SameSizes(a, b)
    ensures SameSizes(a + RowOf(InPlace(page, f)), b + RowOf(page))
  {
  }

  lemma MemoryColumnsAppend(rows: seq<Rollup>, row: Rollup)
    ensures UsedAvgs(rows + [row]) == UsedAvgs(rows) + [row.usedAvg]
    ensures TotalAvgs(rows + [row]) == TotalAvgs(rows) + [row.totalAvg]
  {
  }

  lemma RolledPush(front: seq<seq<Sample>>, page: seq<Sample>, f: Sample -> real)
    ensures Rolled(front + [page]) == Rolled(front) + RowOf(page)
    ensures AllInPlace(front + [page], f) == AllInPlace(front, f) + [InPlace(page, f)]
  {
    assert (front + [page])[..|front|] == front;
  }

  lemma UsedRowMore(a: seq<Rollup>, b: seq<Rollup>, page: seq<Sample>)
    requires CpuAvgs(a) == UsedAvgs(b)
    ensures CpuAvgs(a + RowOf(InPlace(page, UsedOf))) == UsedAvgs(b + RowOf(page))
  {
    if page == [] {
      assert a + [] == a && b + [] == b;
    } else {
      UsedInPlace(page);
      assert HourRow(InPlace(page, UsedOf)).cpuAvg == HourRow(page).usedAvg;
      ColumnsAppend(a, HourRow(InPlace(page, UsedOf)));
      MemoryColumnsAppend(b, HourRow(page));
    }
  }

  lemma {:induction false} UsedRolled(pages: seq<seq<Sample>>)
    ensures CpuAvgs(Rolled(AllInPlace(pages, UsedOf))) == UsedAvgs(Rolled(pages))
  {
    if pages != [] {
      var front, page := pages[..|pages| - 1], pages[|pages| - 1];
      assert pages == front + [page];
      UsedRolled(front);
      RolledPush(front, page, UsedOf);
      RolledPush(AllInPlace(front, UsedOf), InPlace(page, UsedOf), UsedOf);
      UsedRowMore(Rolled(AllInPlace(front, UsedOf)), Rolled(front), page);
    }
  }

  lemma TotalRowMore(a: seq<Rollup>, b: seq<Rollup>, page: seq<Sample>)
    requires CpuAvgs(a) == TotalAvgs(b)
    ensures CpuAvgs(a + RowOf(InPlace(page, TotalOf))) == TotalAvgs(b + RowOf(page))
  {
    if page == [] {
      assert a + [] == a && b + [] == b;
    } else {
      TotalInPlace(page);
      assert HourRow(InPlace(page, TotalOf)).cpuAvg == HourRow(page).totalAvg;
      ColumnsAppend(a, HourRow(InPlace(page, TotalOf)));
      MemoryColumnsAppend(b, HourRow(page));
    }
  }

  lemma {:induction false} TotalRolled(pages: seq<seq<Sample>>)
    ensures CpuAvgs(Rolled(AllInPlace(pages, TotalOf))) == TotalAvgs(Rolled(pages))
  {
    if pages != [] {
      var front, page := pages[..|pages| - 1], pages[|pages| - 1];
      assert pages == front + [page];
      TotalRolled(front);
      RolledPush(front, page, TotalOf);
      RolledPush(AllInPlace(front, TotalOf), InPlace(page, TotalOf), TotalOf);
      TotalRowMore(Rolled(AllInPlace(front, TotalOf)), Rolled(front), page);
    }
  }

  lemma SizesCount(a: seq<Rollup>, b: seq<Rollup>)
    requires SameSizes(a, b)
    ensures forall size :: SameCounts(a, size) <==> SameCounts(b, size)
  {
    forall size ensures SameCounts(a, size) <==> SameCounts(b, size) {
      if SameCounts(a, size) {
        forall row | row in b ensures row.count == size {
          var i :| 0 <= i < |b| && b[i] == row;
          assert a[i] in a;
        }
      }
      if SameCounts(b, size) {
        forall row | row in a ensures row.count == size {
          var i :| 0 <= i < |a| && a[i] == row;
          assert b[i] in b;
        }
      }
    }
  }

  lemma AverageCarries(avg: real, means: seq<real>, xs: seq<real>, hours: seq<Rollup>, others: seq<Rollup>)
    requires AverageDescribes(avg, means, xs, hours) && SameSizes(hours, others)
    ensures AverageDescribes(avg, means, xs, others)
  {
    SizesCount(hours, others);
  }

  lemma UsedDescribes(pages: seq<seq<Sample>>)
    requires Flat(pages) != []
    ensures Rolled(pages) != []
    ensures AverageDescribes(Avg(UsedAvgs(Rolled(pages))), UsedAvgs(Rolled(pages)), Used(Flat(pages)), Rolled(pages))
  {
    var other := AllInPlace(pages, UsedOf);
    FlatInPlace(pages, UsedOf);
    UsedInPlace(Flat(pages));
    RolledInPlace(pages, UsedOf);
    UsedRolled(pages);
    CpuDescribes(other);
    AverageCarries(Avg(UsedAvgs(Rolled(pages))), UsedAvgs(Rolled(pages)), Used(Flat(pages)),
                   Rolled(other), Rolled(pages));
  }

  lemma TotalDescribes(pages: seq<seq<Sample>>)
    requires Flat(pages) != []
    ensures Rolled(pages) != []
    ensures AverageDescribes(Avg(TotalAvgs(Rolled(pages))), TotalAvgs(Rolled(pages)), Total(Flat(pages)), Rolled(pages))
  {
    var other := AllInPlace(pages, TotalOf);
    FlatInPlace(pages, TotalOf);
    TotalInPlace(Flat(pages));
    RolledInPlace(pages, TotalOf);
    TotalRolled(pages);
    CpuDescribes(other);
    AverageCarries(Avg(TotalAvgs(Rolled(pages))), TotalAvgs(Rolled(pages)), Total(Flat(pages)),
                   Rolled(other), Rolled(pages));
  }

  /** The daily row over pages of samples describes them. */
  lemma DayRowDescribes(pages: seq<seq<Sample>>)
    ensures if Flat(pages) == [] then Rolled(pages) == []
            else Rolled(pages) != [] && Describes(DayRow(Rolled(pages)), Rolled(pages), Flat(pages))
  {
    var hours, samples := Rolled(pages), Flat(pages);
    var xs := Cpu(samples);
    PagesMatched(pages, LowerBound(xs), UpperBound(xs));
    if samples != [] {
      DayRowColumns(hours);
      SameMax(CpuAvgs(hours), CpuMaxes(hours), xs, LowerBound(xs), UpperBound(xs));
      MaxIsMax(xs);
      CpuDescribes(pages);
      UsedDescribes(pages);
      TotalDescribes(pages);
    }
  }

  lemma NonZero(size: nat, groups: nat, n: nat)
    requires n == size * groups && n > 0
    ensures size > 0
  {
  }

  ghost function LowerBound(xs: seq<real>): (lo: real)
    ensures forall x | x in xs :: lo <= x
  {
    if xs == [] then 0.0
    else
      var m := LowerBound(xs[..|xs| - 1]);
      assert xs == xs[..|xs| - 1] + [xs[|xs| - 1]];
      if m < xs[|xs| - 1] then m else xs[|xs| - 1]
  }

  ghost function UpperBound(xs: seq<real>): (hi: real)
    ensures forall x | x in xs :: x <= hi
  {
    if xs == [] then 0.0
    else
      var m := UpperBound(xs[..|xs| - 1]);
      assert xs == xs[..|xs| - 1] + [xs[|xs| - 1]];
      if m > xs[|xs| - 1] then m else xs[|xs| - 1]
  }

  /** What a complete daily run leaves at one key of its stretch. */
  lemma DailyRunAt(s: TierState, now: Stamp, k: Key)
    requires StartDay(s, now) <= k.slot < DayOf(now)
    ensures var hours, daily := DayRows(s.hourly, k.agent, k.slot), AfterDaily(s, now).daily;
      if hours == [] then (k in daily <==> k in s.daily) && (k in daily ==> daily[k] == s.daily[k])
      else k in daily && daily[k] == DayRow(hours)
  {
    StretchAt(Hours(s.hourly), StartDay(s, now), DayOf(now), k);
  }

  lemma CellAgrees(w: World, agent: string, hour: nat)
    requires RolledAgree(w) && Base(w) <= hour < Mark(w)
    ensures CellRow(w.tiers.hourly, agent, hour) == RowOf(Rows(w.onTime, agent, hour))
  {
    assert Agrees(w.tiers.hourly, Samples(w.onTime), Key(agent, hour));
  }

  lemma {:induction false} CellsAgree(table: RollupTable, raw: seq<Sample>, agent: string, first: nat, end: nat)
    requires forall h: nat | first <= h < end :: CellRow(table, agent, h) == RowOf(Rows(raw, agent, h))
    ensures AgreesOver(table, raw, agent, first, end)
    decreases end
  {
    if first < end {
      CellsAgree(table, raw, agent, first, end - 1);
    }
  }

  lemma DayAgrees(w: World, agent: string, first: nat, end: nat)
    requires RolledAgree(w) && (Base(w) <= first || end <= first) && end <= Mark(w)
    ensures AgreesOver(w.tiers.hourly, w.onTime, agent, first, end)
  {
    forall h: nat | first <= h < end ensures CellRow(w.tiers.hourly, agent, h) == RowOf(Rows(w.onTime, agent, h)) {
      CellAgrees(w, agent, h);
    }
    CellsAgree(w.tiers.hourly, w.onTime, agent, first, end);
  }

  /** Where the rolled-up hours of a day begin: later than the day when the first run started in it. */
  function DayFirst(w: World, day: nat): nat {
    if Base(w) <= 24 * day then 24 * day else if Base(w) <= 24 * day + 24 then Base(w) else 24 * day + 24
  }

  /** The samples of one agent and day that were written before their hour was rolled up. */
  function DaySamples(w: World, agent: string, day: nat): seq<Sample> {
    Window(w.onTime, agent, DayFirst(w, day), 24 * day + 24)
  }

  /** Rows of the day before the first run's start: only an interrupted run before it can have left any. */
  function Strays(w: World, agent: string, day: nat): seq<Rollup> {
    HourRows(w.tiers.hourly, agent, 24 * day, DayFirst(w, day))
  }

  lemma {:induction false} HourRowsSplit(table: RollupTable, agent: string, first: nat, middle: nat, end: nat)
    requires first <= middle <= end
    ensures HourRows(table, agent, first, end)
         == HourRows(table, agent, first, middle) + HourRows(table, agent, middle, end)
    decreases end
  {
    if middle < end {
      HourRowsSplit(table, agent, first, middle, end - 1);
    }
  }

  lemma {:induction false} CountsConcat(a: seq<Rollup>, b: seq<Rollup>)
    ensures Counts(a + b) == Counts(a) + Counts(b)
  {
    if b == [] {
      assert a + b == a;
    } else {
      var front, last := b[..|b| - 1], b[|b| - 1];
      CountsConcat(a, front);
      assert a + b == (a + front) + [last];
      CountsAppend(a + front, last);
    }
  }

  lemma {:induction false} SomeCounted(table: RollupTable, agent: string, first: nat, end: nat)
    requires forall k | k in table :: table[k].count > 0
    ensures HourRows(table, agent, first, end) != [] ==> Counts(HourRows(table, agent, first, end)) > 0
    decreases end
  {
    if first < end {
      var k := Key(agent, end - 1);
      SomeCounted(table, agent, first, end - 1);
      if k in table {
        CountsAppend(HourRows(table, agent, first, end - 1), table[k]);
      } else {
        assert HourRows(table, agent, first, end) == HourRows(table, agent, first, end - 1);
      }
    }
  }

  lemma DailyStep(days: nat, w: World, now: Stamp)
    requires NotAfter(w.clock, now)
    ensures Apply(days, w, DailyRun(now)).tiers == AfterDaily(w.tiers, now)
  {
  }

  lemma WindowDescribed(table: RollupTable, raw: seq<Sample>, agent: string, first: nat, end: nat)
    requires AgreesOver(table, raw, agent, first, end)
    ensures var hours, samples := HourRows(table, agent, first, end), Window(raw, agent, first, end);
      && Counts(hours) == |samples|
      && if samples == [] then hours == [] else hours != [] && Describes(DayRow(hours), hours, samples)
  {
    HourRowsRolled(table, raw, agent, first, end);
    DayRowDescribes(Pages(raw, agent, first, end));
    var xs := Cpu(Window(raw, agent, first, end));
    PagesMatched(Pages(raw, agent, first, end), LowerBound(xs), UpperBound(xs));
  }

  /** The day's hourly rows: strays, if any, and then the rows of the rolled-up hours. */
  lemma DayRowsAre(w: World, agent: string, day: nat)
    requires RolledAgree(w) && 24 * day + 24 <= Mark(w)
    ensures var hours := HourRows(w.tiers.hourly, agent, DayFirst(w, day), 24 * day + 24);
      var samples := DaySamples(w, agent, day);
      && DayRows(w.tiers.hourly, agent, day) == Strays(w, agent, day) + hours
      && Counts(hours) == |samples|
      && if samples == [] then hours == [] else hours != [] && Describes(DayRow(hours), hours, samples)
  {
    var first, end := DayFirst(w, day), 24 * day + 24;
    HourRowsSplit(w.tiers.hourly, agent, 24 * day, first, end);
    DayAgrees(w, agent, first, end);
    WindowDescribed(w.tiers.hourly, w.onTime, agent, first, end);
  }

  /** What a daily run makes of a day at or after its start that the hourly runs have completed. */
  ghost predicate DailyOutcome(w: World, agent: string, day: nat, daily: RollupTable) {
    var k, samples := Key(agent, day), DaySamples(w, agent, day);
    if Strays(w, agent, day) != [] then k in daily && daily[k].count > |samples|
    else if samples == [] then (k in daily <==> k in w.tiers.daily) && (k in daily ==> daily[k] == w.tiers.daily[k])
    else k in daily && Describes(daily[k], DayRows(w.tiers.hourly, agent, day), samples)
  }

  lemma DailyRunMatches(w: World, now: Stamp, agent: string, day: nat)
    requires RolledAgree(w) && Fitting(w)
    requires StartDay(w.tiers, now) <= day < DayOf(now) && 24 * day + 24 <= Mark(w)
    ensures DailyOutcome(w, agent, day, AfterDaily(w.tiers, now).daily)
    ensures !w.early ==> Strays(w, agent, day) == []
  {
    var strays := Strays(w, agent, day);
    var hours := HourRows(w.tiers.hourly, agent, DayFirst(w, day), 24 * day + 24);
    DayRowsAre(w, agent, day);
    DailyRunAt(w.tiers, now, Key(agent, day));
    if strays == [] {
      assert strays + hours == hours;
    } else {
      SomeCounted(w.tiers.hourly, agent, 24 * day, DayFirst(w, day));
      CountsConcat(strays, hours);
      DayRowColumns(strays + hours);
    }
    if !w.early {
      NoStrays(w, agent, day);
    }
  }

  lemma NoStrays(w: World, agent: string, day: nat)
    requires Fitting(w) && !w.early
    ensures Strays(w, agent, day) == []
  {
    if 24 * day < DayFirst(w, day) {
      HourRowsPresent(w.tiers.hourly, agent, 24 * day, DayFirst(w, day));
    }
  }

  /**
    Two-tier aggregation: a daily run over a day that the hourly runs have completed, be it
    the day in the middle of which they first started, gives each agent with rolled-up raw
    samples in the day a row whose count and maximum are those of the samples, whose average
    lies between their bounds, and equals their mean when all hours count the same; an agent
    without samples gets no row from the run.  The one exception, where the count is too
    large, is a day for which an interrupted run left rows before the first run's start,
    and only one interrupted before any had completed can.
   */
  lemma DailyMatchesRaw(days: nat, ops: seq<Op>, now: Stamp, agent: string, day: nat)
    requires days >= 1 && Brisk(ops)
    requires var w := Exec(days, ops);
      && NotAfter(w.clock, now) && StartDay(w.tiers, now) <= day < DayOf(now)
      && 24 * day + 24 <= Mark(w)
    ensures var w := Exec(days, ops);
      && DailyOutcome(w, agent, day, Apply(days, w, DailyRun(now)).tiers.daily)
      && (!w.early ==> Strays(w, agent, day) == [])
  {
    HistoryInv(days, ops);
    DailyRunMatches(Exec(days, ops), now, agent, day);
    DailyStep(days, Exec(days, ops), now);
  }

  /** The day's samples are those written on time, of the agent, in the day's rolled-up hours. */
  lemma DaySamplesAre(w: World, agent: string, day: nat, r: Sample)
    ensures r in DaySamples(w, agent, day)
       <==> r in w.onTime && r.agent == agent && Base(w) <= Bucket(r.at) && 24 * day <= Bucket(r.at) < 24 * day + 24
  {
    WindowMembers(w.onTime, agent, DayFirst(w, day), 24 * day + 24, r);
  }
}
