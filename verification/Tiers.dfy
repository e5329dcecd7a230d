/** Tiers 1 and 2 of the history: the hourly and the daily rollup as tables. */
module Tiers {
  import opened Sequences
  import opened Timestamps
  import opened RawSamples

  // ---------- SQL aggregates ----------

  function Sum(xs: seq<real>): real {
    if xs == [] then 0.0 else Sum(xs[..|xs| - 1]) + xs[|xs| - 1]
  }

  function Max(xs: seq<real>): real
    requires xs != []
  {
    if |xs| == 1 then xs[0]
    else
      var front := Max(xs[..|xs| - 1]);
      if front < xs[|xs| - 1] then xs[|xs| - 1] else front
  }

  function Avg(xs: seq<real>): real
    requires xs != []
  {
    Sum(xs) / |xs| as real
  }

  // ---------- Rollup tables ----------

  /** Primary key of a rollup table: agent and slot, the number of the hour or of the day. */
  datatype Key = Key(agent: string, slot: nat)

  datatype Rollup = Rollup(count: nat, cpuAvg: real, cpuMax: real, usedAvg: real, totalAvg: real)

  type RollupTable = map<Key, Rollup>

  /** The tier below: raw samples for the hourly table, the hourly table for the daily one. */
  datatype Below = Samples(raw: seq<Sample>) | Hours(hourly: RollupTable)

  /** What the tier below has for a key: a row, or nothing. */
  function Cell(below: Below, k: Key): Option<Rollup> {
    match below
    case Samples(raw) => HourCell(Rows(raw, k.agent, k.slot))
    case Hours(hourly) => DayCell(DayRows(hourly, k.agent, k.slot))
  }

  /** GROUP BY agent_id: the keys of the agents with data in a slot. */
  function Groups(below: Below, slot: nat): set<Key> {
    match below
    case Samples(raw) => set r | r in raw && InHour(r.at, slot) :: Key(r.agent, slot)
    case Hours(hourly) => set k | k in hourly && InDay(k.slot, slot) :: Key(k.agent, slot)
  }

  /** The rows one slot's query returns. */
  function Batch(below: Below, slot: nat): RollupTable {
    map k | k in Groups(below, slot) && Cell(below, k).Some? :: Cell(below, k).value
  }

  /** A table agrees with the tier below at one key. */
  predicate Agrees(table: RollupTable, below: Below, k: Key) {
    match Cell(below, k) case None => k !in table case Some(row) => k in table && table[k] == row
  }

  /** The groups are exactly the keys that have a cell. */
  lemma GroupedByAgent(below: Below, k: Key)
    ensures k in Groups(below, k.slot) <==> Cell(below, k).Some?
  {
    match below
    case Samples(raw) => AgentHasRows(raw, k);
    case Hours(hourly) => AgentHasHours(hourly, k);
  }

  lemma BatchAt(below: Below, slot: nat, k: Key)
    ensures if k.slot == slot then Agrees(Batch(below, slot), below, k) else k !in Batch(below, slot)
  {
    GroupedByAgent(below, k);
  }

  /** A query by slot. */
  type Query = nat -> RollupTable

  /** The batches of the slots from `first` up to but not including `end`. */
  function Batches(query: Query, first: nat, end: nat): (pages: seq<RollupTable>)
    ensures |pages| == if end <= first then 0 else end - first
    decreases end
  {
    if end <= first then [] else Batches(query, first, end - 1) + [query(end - 1)]
  }

  lemma {:induction false} BatchesAt(query: Query, first: nat, end: nat, slot: nat)
    requires first <= slot < end
    ensures Batches(query, first, end)[slot - first] == query(slot)
    decreases end
  {
    if slot < end - 1 {
      BatchesAt(query, first, end - 1, slot);
    }
  }

  /** Writing batches one after the other into an empty table. */
  function Overlay(pages: seq<RollupTable>): RollupTable {
    if pages == [] then map[] else Overlay(pages[..|pages| - 1]) + pages[|pages| - 1]
  }

  /** The i-th page is about slot `first + i`. */
  ghost predicate Paged(pages: seq<RollupTable>, first: nat) {
    forall i, k: Key | 0 <= i < |pages| && k in pages[i] :: k.slot == first + i
  }

  lemma {:induction false} OverlayAt(pages: seq<RollupTable>, first: nat, k: Key)
    requires Paged(pages, first)
    ensures k in Overlay(pages) <==> first <= k.slot < first + |pages| && k in pages[k.slot - first]
    ensures k in Overlay(pages) ==> Overlay(pages)[k] == pages[k.slot - first][k]
  {
    if pages != [] {
      OverlayAt(pages[..|pages| - 1], first, k);
    }
  }

  /** A query answers about the slot it is asked for. */
  ghost predicate Slotted(query: Query) {
    forall slot, k: Key | k in query(slot) :: k.slot == slot
  }

  lemma {:induction false} BatchesPaged(query: Query, first: nat, end: nat)
    requires Slotted(query)
    ensures Paged(Batches(query, first, end), first)
  {
    var pages := Batches(query, first, end);
    forall i, k: Key | 0 <= i < |pages| && k in pages[i] ensures k.slot == first + i {
      BatchesAt(query, first, end, first + i);
    }
  }

  /** The overlay of a range of slots has exactly what the query answers for them. */
  lemma {:induction false} OverlayOfQuery(query: Query, first: nat, end: nat, k: Key)
    requires Slotted(query)
    ensures var table := Overlay(Batches(query, first, end));
      && (k in table <==> first <= k.slot < end && k in query(k.slot))
      && (k in table ==> table[k] == query(k.slot)[k])
  {
    BatchesPaged(query, first, end);
    OverlayAt(Batches(query, first, end), first, k);
    if first <= k.slot < end {
      BatchesAt(query, first, end, k.slot);
    }
  }

  lemma TablesEqual(a: RollupTable, b: RollupTable)
    requires forall k: Key :: k in a <==> k in b
    requires forall k | k in a :: a[k] == b[k]
    ensures a == b
  {
  }

  lemma AddAssociates(a: RollupTable, b: RollupTable, c: RollupTable)
    ensures (a + b) + c == a + (b + c)
  {
  }

  /** Writing two stretches of batches one after the other is writing them in one go. */
  lemma OverlaySplits(query: Query, first: nat, middle: nat, end: nat)
    requires Slotted(query) && first <= middle <= end
    ensures Overlay(Batches(query, first, middle)) + Overlay(Batches(query, middle, end))
         == Overlay(Batches(query, first, end))
  {
    var a, b := Overlay(Batches(query, first, middle)), Overlay(Batches(query, middle, end));
    var whole := Overlay(Batches(query, first, end));
    forall k: Key
      ensures k in a + b <==> k in whole
      ensures k in a + b ==> (a + b)[k] == whole[k]
    {
      OverlayOfQuery(query, first, middle, k);
      OverlayOfQuery(query, middle, end, k);
      OverlayOfQuery(query, first, end, k);
    }
    TablesEqual(a + b, whole);
  }

  // ---------- The rollup of a tier ----------

  function QueryOf(below: Below): Query {
    (slot: nat) => Batch(below, slot)
  }

  /** What a complete run over the slots from `first` up to but not including `end` writes. */
  function Stretch(below: Below, first: nat, end: nat): RollupTable {
    Overlay(Batches(QueryOf(below), first, end))
  }

  lemma QuerySlotted(below: Below)
    ensures Slotted(QueryOf(below))
  {
  }

  /** A stretch holds exactly the cells of its slots. */
  lemma StretchAt(below: Below, first: nat, end: nat, k: Key)
    ensures if first <= k.slot < end then Agrees(Stretch(below, first, end), below, k)
            else k !in Stretch(below, first, end)
  {
    QuerySlotted(below);
    OverlayOfQuery(QueryOf(below), first, end, k);
    BatchAt(below, k.slot, k);
  }

  /** Rolling up in two stretches is rolling up in one. */
  lemma StretchSplits(below: Below, first: nat, middle: nat, end: nat)
    requires first <= middle <= end
    ensures Stretch(below, first, middle) + Stretch(below, middle, end) == Stretch(below, first, end)
  {
    QuerySlotted(below);
    OverlaySplits(QueryOf(below), first, middle, end);
  }

  /** Some of the rows of a table: what an interrupted run has written. */
  predicate PartOf(part: RollupTable, whole: RollupTable) {
    forall k | k in part :: k in whole && part[k] == whole[k]
  }

  /** A run stopped inside page i has written part of what it was to write. */
  lemma OverlayPart(pages: seq<RollupTable>, first: nat, i: nat, some: RollupTable)
    requires Paged(pages, first) && i < |pages| && PartOf(some, pages[i])
    ensures PartOf(Overlay(pages[..i]) + some, Overlay(pages))
  {
    var part := Overlay(pages[..i]) + some;
    forall k | k in part ensures k in Overlay(pages) && part[k] == Overlay(pages)[k] {
      OverlayAt(pages[..i], first, k);
      OverlayAt(pages, first, k);
    }
  }

  // ---------- Hourly ----------

  /** The rows of one agent that the query for one hour selects. */
  function Rows(raw: seq<Sample>, agent: string, hour: nat): seq<Sample> {
    if raw == [] then []
    else
      var last := raw[|raw| - 1];
      Rows(raw[..|raw| - 1], agent, hour) + (if last.agent == agent && InHour(last.at, hour) then [last] else [])
  }

  function Cpu(rows: seq<Sample>): (xs: seq<real>)
    ensures |xs| == |rows|
  {
    if rows == [] then [] else Cpu(rows[..|rows| - 1]) + [rows[|rows| - 1].cpu]
  }

  function Used(rows: seq<Sample>): (xs: seq<real>)
    ensures |xs| == |rows|
  {
    if rows == [] then [] else Used(rows[..|rows| - 1]) + [rows[|rows| - 1].usedMemory as real]
  }

  function Total(rows: seq<Sample>): (xs: seq<real>)
    ensures |xs| == |rows|
  {
    if rows == [] then [] else Total(rows[..|rows| - 1]) + [rows[|rows| - 1].totalMemory as real]
  }

  function HourRow(rows: seq<Sample>): Rollup
    requires rows != []
  {
    Rollup(|rows|, Avg(Cpu(rows)), Max(Cpu(rows)), Avg(Used(rows)), Avg(Total(rows)))
  }

  function HourCell(rows: seq<Sample>): Option<Rollup> {
    if rows == [] then None else Some(HourRow(rows))
  }

  lemma {:induction false} RowsMembers(raw: seq<Sample>, agent: string, hour: nat, r: Sample)
    ensures r in Rows(raw, agent, hour) <==> r in raw && r.agent == agent && InHour(r.at, hour)
  {
    if raw != [] {
      var n := |raw| - 1;
      RowsMembers(raw[..n], agent, hour, r);
      assert raw == raw[..n] + [raw[n]];
    }
  }

  lemma {:induction false} AgentHasRows(raw: seq<Sample>, k: Key)
    ensures k in Groups(Samples(raw), k.slot) <==> Rows(raw, k.agent, k.slot) != []
  {
    var rows := Rows(raw, k.agent, k.slot);
    if k in Groups(Samples(raw), k.slot) {
      var r :| r in raw && InHour(r.at, k.slot) && Key(r.agent, k.slot) == k;
      RowsMembers(raw, k.agent, k.slot, r);
    }
    if rows != [] {
      RowsMembers(raw, k.agent, k.slot, rows[0]);
      assert Key(rows[0].agent, k.slot) == k;
    }
  }

  // ---------- Hourly rows in plain sums ----------

  function CpuOf(r: Sample): real {
    r.cpu
  }

  function UsedOf(r: Sample): real {
    r.usedMemory as real
  }

  function TotalOf(r: Sample): real {
    r.totalMemory as real
  }

  /** The samples of an agent and hour, counted one by one. */
  function CountIn(raw: seq<Sample>, agent: string, hour: nat): nat {
    if raw == [] then 0
    else
      var last := raw[|raw| - 1];
      CountIn(raw[..|raw| - 1], agent, hour) + (if last.agent == agent && Bucket(last.at) == hour then 1 else 0)
  }

  /** The sum of a number that each sample of an agent and hour has. */
  function SumIn(raw: seq<Sample>, agent: string, hour: nat, f: Sample -> real): real {
    if raw == [] then 0.0
    else
      var last := raw[|raw| - 1];
      SumIn(raw[..|raw| - 1], agent, hour, f)
      + (if last.agent == agent && Bucket(last.at) == hour then f(last) else 0.0)
  }

  /** The mean of some numbers, by their count and sum. */
  predicate IsMean(mean: real, count: nat, sum: real) {
    mean * count as real == sum
  }

  /**
    What a row says is true of the samples of its agent and hour: their number, their sums of
    processor load, used and total memory, and their greatest processor load.
   */
  ghost predicate HourTrue(row: Rollup, raw: seq<Sample>, agent: string, hour: nat) {
    && row.count == CountIn(raw, agent, hour) > 0
    && IsMean(row.cpuAvg, row.count, SumIn(raw, agent, hour, CpuOf))
    && IsMean(row.usedAvg, row.count, SumIn(raw, agent, hour, UsedOf))
    && IsMean(row.totalAvg, row.count, SumIn(raw, agent, hour, TotalOf))
    && HourMax(row.cpuMax, raw, agent, hour)
  }

  /** The greatest processor load of an agent and hour. */
  ghost predicate HourMax(m: real, raw: seq<Sample>, agent: string, hour: nat) {
    && (exists r :: r in raw && r.agent == agent && Bucket(r.at) == hour && r.cpu == m)
    && (forall r | r in raw && r.agent == agent && Bucket(r.at) == hour :: r.cpu <= m)
  }

  /** A table has a true row for each agent and hour with samples in a range of hours, and no other row in it. */
  ghost predicate HoursTrue(table: RollupTable, raw: seq<Sample>, first: nat, end: nat) {
    forall k: Key | first <= k.slot < end ::
      if CountIn(raw, k.agent, k.slot) == 0 then k !in table else k in table && HourTrue(table[k], raw, k.agent, k.slot)
  }

  /** The columns of an hour's rows add up to the sums of the samples. */
  ghost predicate SumsMatch(rows: seq<Sample>, raw: seq<Sample>, agent: string, hour: nat) {
    && |rows| == CountIn(raw, agent, hour)
    && Sum(Cpu(rows)) == SumIn(raw, agent, hour, CpuOf)
    && Sum(Used(rows)) == SumIn(raw, agent, hour, UsedOf)
    && Sum(Total(rows)) == SumIn(raw, agent, hour, TotalOf)
  }

  lemma SumsMatchMore(rows: seq<Sample>, front: seq<Sample>, last: Sample, agent: string, hour: nat)
    requires SumsMatch(rows, front, agent, hour)
    ensures SumsMatch(if last.agent == agent && Bucket(last.at) == hour then rows + [last] else rows,
                      front + [last], agent, hour)
  {
    assert (front + [last])[..|front|] == front;
    ColumnsPush(rows, last);
  }

  lemma {:induction false} RowsInSums(raw: seq<Sample>, agent: string, hour: nat)
    ensures SumsMatch(Rows(raw, agent, hour), raw, agent, hour)
  {
    if raw != [] {
      var front, last := raw[..|raw| - 1], raw[|raw| - 1];
      RowsInSums(front, agent, hour);
      SumsMatchMore(Rows(front, agent, hour), front, last, agent, hour);
      assert raw == front + [last];
      BucketOfHour(last.at, hour);
      assert Rows(front, agent, hour) + [] == Rows(front, agent, hour);
    }
  }

  lemma ColumnsPush(rows: seq<Sample>, last: Sample)
    ensures Sum(Cpu(rows + [last])) == Sum(Cpu(rows)) + last.cpu
    ensures Sum(Used(rows + [last])) == Sum(Used(rows)) + last.usedMemory as real
    ensures Sum(Total(rows + [last])) == Sum(Total(rows)) + last.totalMemory as real
  {
    assert (rows + [last])[..|rows|] == rows;
    SumPush(Cpu(rows), last.cpu);
    SumPush(Used(rows), last.usedMemory as real);
    SumPush(Total(rows), last.totalMemory as real);
  }

  lemma SumPush(xs: seq<real>, x: real)
    ensures Sum(xs + [x]) == Sum(xs) + x
  {
  }

  lemma MeanTrue(mean: real, xs: seq<real>, n: nat, sum: real)
    requires xs != [] && mean == Avg(xs) && n == |xs| && sum == Sum(xs)
    ensures IsMean(mean, n, sum)
  {
  }

  ghost predicate IsMax(m: real, xs: seq<real>) {
    m in xs && forall x | x in xs :: x <= m
  }

  lemma {:induction false} MaxIsMax(xs: seq<real>)
    requires xs != []
    ensures IsMax(Max(xs), xs)
  {
    if |xs| > 1 {
      MaxIsMax(xs[..|xs| - 1]);
      assert xs == xs[..|xs| - 1] + [xs[|xs| - 1]];
    }
  }

  lemma {:induction false} CpuMembers(rows: seq<Sample>, x: real)
    ensures x in Cpu(rows) <==> exists r :: r in rows && r.cpu == x
  {
    if rows != [] {
      var front, last := rows[..|rows| - 1], rows[|rows| - 1];
      CpuMembers(front, x);
      assert rows == front + [last];
    }
  }

  /** The greatest processor load of some rows is one of theirs. */
  lemma CpuMaxMeans(rows: seq<Sample>)
    requires rows != []
    ensures exists r :: r in rows && r.cpu == Max(Cpu(rows))
    ensures forall r | r in rows :: r.cpu <= Max(Cpu(rows))
  {
    MaxIsMax(Cpu(rows));
    CpuMembers(rows, Max(Cpu(rows)));
    forall r | r in rows ensures r.cpu <= Max(Cpu(rows)) {
      CpuMembers(rows, r.cpu);
    }
  }

  lemma HourMembers(raw: seq<Sample>, agent: string, hour: nat, r: Sample)
    ensures r in Rows(raw, agent, hour) <==> r in raw && r.agent == agent && Bucket(r.at) == hour
  {
    RowsMembers(raw, agent, hour, r);
    BucketOfHour(r.at, hour);
  }

  lemma HourMaxTrue(raw: seq<Sample>, agent: string, hour: nat)
    requires Rows(raw, agent, hour) != []
    ensures HourMax(Max(Cpu(Rows(raw, agent, hour))), raw, agent, hour)
  {
    var rows := Rows(raw, agent, hour);
    CpuMaxMeans(rows);
    var r :| r in rows && r.cpu == Max(Cpu(rows));
    HourMembers(raw, agent, hour, r);
    forall q | q in raw && q.agent == agent && Bucket(q.at) == hour ensures q.cpu <= Max(Cpu(rows)) {
      HourMembers(raw, agent, hour, q);
    }
  }

  /** The row of an hour's samples is true of them. */
  lemma HourRowTrue(raw: seq<Sample>, agent: string, hour: nat)
    ensures var rows := Rows(raw, agent, hour);
      if CountIn(raw, agent, hour) == 0 then rows == [] else rows != [] && HourTrue(HourRow(rows), raw, agent, hour)
  {
    var rows := Rows(raw, agent, hour);
    RowsInSums(raw, agent, hour);
    if rows != [] {
      var row := HourRow(rows);
      MeanTrue(row.cpuAvg, Cpu(rows), row.count, SumIn(raw, agent, hour, CpuOf));
      MeanTrue(row.usedAvg, Used(rows), row.count, SumIn(raw, agent, hour, UsedOf));
      MeanTrue(row.totalAvg, Total(rows), row.count, SumIn(raw, agent, hour, TotalOf));
      HourMaxTrue(raw, agent, hour);
    }
  }

  /** What a complete run does to a table: true rows for the hours with samples, all others as they were. */
  ghost predicate RolledUp(before: RollupTable, after: RollupTable, raw: seq<Sample>, first: nat, end: nat) {
    forall k: Key ::
      if first <= k.slot < end && CountIn(raw, k.agent, k.slot) > 0
      then k in after && HourTrue(after[k], raw, k.agent, k.slot)
      else (k in after <==> k in before) && (k in after ==> after[k] == before[k])
  }

  lemma StretchRollsUp(table: RollupTable, raw: seq<Sample>, first: nat, end: nat)
    ensures RolledUp(table, table + Stretch(Samples(raw), first, end), raw, first, end)
  {
    var due := Stretch(Samples(raw), first, end);
    forall k: Key
      ensures if first <= k.slot < end && CountIn(raw, k.agent, k.slot) > 0
              then k in due && HourTrue(due[k], raw, k.agent, k.slot) else k !in due
    {
      StretchAt(Samples(raw), first, end, k);
      if first <= k.slot < end {
        AgreementTrue(due, raw, k);
      }
    }
  }

  /** A table that agrees with the samples at an agent's hour has a true row there, or none without samples. */
  lemma AgreementTrue(table: RollupTable, raw: seq<Sample>, k: Key)
    requires Agrees(table, Samples(raw), k)
    ensures if CountIn(raw, k.agent, k.slot) == 0 then k !in table
            else k in table && HourTrue(table[k], raw, k.agent, k.slot)
  {
    HourRowTrue(raw, k.agent, k.slot);
  }

  // ---------- Where a run starts ----------

  /** SELECT MIN(collected_at): the least text. */
  function Earliest(raw: seq<Sample>): Option<Stamp> {
    if raw == [] then None
    else
      var last := raw[|raw| - 1].at;
      match Earliest(raw[..|raw| - 1])
      case None => Some(last)
      case Some(t) => if Before(last, t) then Some(last) else Some(t)
  }

  /** How far the first run looks back: 24 hours. */
  function LookBack(end: nat): nat {
    if end < 24 then 0 else end - 24
  }

  /** rollupWatermark: the saved mark, or at most 24 hours back, later if the first sample is later. */
  function FirstHour(raw: seq<Sample>, mark: Option<nat>, end: nat): nat {
    match mark
    case Some(m) => m
    case None =>
      match Earliest(raw)
      case None => LookBack(end)
      case Some(t) => if t.sec / 3600 > LookBack(end) then t.sec / 3600 else LookBack(end)
  }

  /** A run resumes at the mark; the first starts with the first sample's hour, but looks back 24 hours at most. */
  lemma HourlyStart(raw: seq<Sample>, mark: Option<nat>, end: nat)
    ensures var first, oldest := FirstHour(raw, mark, end), if end < 24 then 0 else end - 24;
      if mark.Some? then first == mark.value
      else if raw == [] then first == oldest
      else
        && first >= oldest && (exists r :: r in raw && r.at.sec / 3600 <= first)
        && (first > oldest ==> forall r | r in raw :: first <= r.at.sec / 3600)
  {
    if raw != [] {
      EarliestIsSome(raw);
      forall r | r in raw ensures Earliest(raw).Some? && Earliest(raw).value.sec <= r.at.sec {
        EarliestIsLeast(raw, r);
      }
    }
  }

  lemma {:induction false} EarliestIsSome(raw: seq<Sample>)
    requires raw != []
    ensures Earliest(raw).Some? && exists r :: r in raw && r.at == Earliest(raw).value
  {
    var front, last := raw[..|raw| - 1], raw[|raw| - 1];
    assert raw == front + [last];
    if front != [] {
      EarliestIsSome(front);
    }
  }

  /** The earliest text has the least second. */
  lemma {:induction false} EarliestIsLeast(raw: seq<Sample>, r: Sample)
    requires r in raw
    ensures Earliest(raw).Some? && Earliest(raw).value.sec <= r.at.sec
  {
    var front, last := raw[..|raw| - 1], raw[|raw| - 1];
    assert raw == front + [last];
    if r in front {
      EarliestIsLeast(front, r);
    } else if front != [] {
      EarliestIsLeast(front, front[0]);
    }
  }

  // ---------- Daily ----------

  /** The rollup rows of one agent for the hours from `first` up to but not including `end`, in order. */
  function HourRows(hourly: RollupTable, agent: string, first: nat, end: nat): seq<Rollup>
    decreases end
  {
    if end <= first then []
    else
      var k := Key(agent, end - 1);
      HourRows(hourly, agent, first, end - 1) + (if k in hourly then [hourly[k]] else [])
  }

  function DayRows(hourly: RollupTable, agent: string, day: nat): seq<Rollup> {
    HourRows(hourly, agent, 24 * day, 24 * day + 24)
  }

  function Counts(rows: seq<Rollup>): nat {
    if rows == [] then 0 else Counts(rows[..|rows| - 1]) + rows[|rows| - 1].count
  }

  function CpuAvgs(rows: seq<Rollup>): (xs: seq<real>)
    ensures |xs| == |rows|
  {
    if rows == [] then [] else CpuAvgs(rows[..|rows| - 1]) + [rows[|rows| - 1].cpuAvg]
  }

  function CpuMaxes(rows: seq<Rollup>): (xs: seq<real>)
    ensures |xs| == |rows|
  {
    if rows == [] then [] else CpuMaxes(rows[..|rows| - 1]) + [rows[|rows| - 1].cpuMax]
  }

  function UsedAvgs(rows: seq<Rollup>): (xs: seq<real>)
    ensures |xs| == |rows|
  {
    if rows == [] then [] else UsedAvgs(rows[..|rows| - 1]) + [rows[|rows| - 1].usedAvg]
  }

  function TotalAvgs(rows: seq<Rollup>): (xs: seq<real>)
    ensures |xs| == |rows|
  {
    if rows == [] then [] else TotalAvgs(rows[..|rows| - 1]) + [rows[|rows| - 1].totalAvg]
  }

  function DayRow(rows: seq<Rollup>): Rollup
    requires rows != []
  {
    Rollup(Counts(rows), Avg(CpuAvgs(rows)), Max(CpuMaxes(rows)), Avg(UsedAvgs(rows)), Avg(TotalAvgs(rows)))
  }

  function DayCell(rows: seq<Rollup>): Option<Rollup> {
    if rows == [] then None else Some(DayRow(rows))
  }

  lemma {:induction false} HourRowsPresent(hourly: RollupTable, agent: string, first: nat, end: nat)
    ensures HourRows(hourly, agent, first, end) != [] <==> exists k | first <= k < end :: Key(agent, k) in hourly
    decreases end
  {
    if first < end {
      HourRowsPresent(hourly, agent, first, end - 1);
      if Key(agent, end - 1) in hourly {
        assert first <= end - 1 < end;
      }
    }
  }

  lemma AgentHasHours(hourly: RollupTable, d: Key)
    ensures d in Groups(Hours(hourly), d.slot) <==> DayRows(hourly, d.agent, d.slot) != []
  {
    HourRowsPresent(hourly, d.agent, 24 * d.slot, 24 * d.slot + 24);
    if DayRows(hourly, d.agent, d.slot) != [] {
      var h :| 24 * d.slot <= h < 24 * d.slot + 24 && Key(d.agent, h) in hourly;
      assert Key(Key(d.agent, h).agent, d.slot) == d;
    }
  }

  /** dailyRollupWatermark: the saved mark, or at most seven days back, later if the first hour is later. */
  function FirstDay(hourly: RollupTable, mark: Option<nat>, end: nat): nat {
    match mark
    case Some(m) => m
    case None =>
      var default := if end < 7 then 0 else end - 7;
      match EarliestHour(hourly)
      case None => default
      case Some(h) => if h / 24 > default then h / 24 else default
  }

  /** SELECT MIN(hour_start), over whole seconds. */
  function EarliestHour(hourly: RollupTable): Option<nat> {
    var slots := set k | k in hourly :: k.slot;
    if slots == {} then None else Some(Least(slots))
  }

  /** Likewise for days: at the mark, or with the first hour's day, but seven days back at most. */
  lemma DailyStart(hourly: RollupTable, mark: Option<nat>, end: nat)
    ensures var first, oldest := FirstDay(hourly, mark, end), if end < 7 then 0 else end - 7;
      if mark.Some? then first == mark.value
      else if hourly == map[] then first == oldest
      else
        && first >= oldest && (exists k :: k in hourly && k.slot / 24 <= first)
        && (first > oldest ==> forall k | k in hourly :: first <= k.slot / 24)
  {
    var slots := set k | k in hourly :: k.slot;
    if hourly != map[] {
      var k :| k in hourly;
      assert k.slot in slots;
      assert EarliestHour(hourly) == Some(Least(slots));
      var first :| first in hourly && first.slot == Least(slots);
      forall k | k in hourly ensures Least(slots) / 24 <= k.slot / 24 {
        assert k.slot in slots;
      }
    } else {
      assert slots == {};
    }
  }

  function Least(slots: set<nat>): (m: nat)
    requires slots != {}
    ensures m in slots && forall x | x in slots :: m <= x
  {
    ghost var x :| x in slots;
    LeastExists(slots, x);
    var m :| m in slots && forall x | x in slots :: m <= x;
    m
  }

  lemma {:induction false} LeastExists(slots: set<nat>, x: nat)
    requires x in slots
    ensures exists m :: m in slots && forall y | y in slots :: m <= y
  {
    if y :| y in slots && y < x {
      LeastExists(slots, y);
    } else {
      assert forall y | y in slots :: x <= y;
    }
  }
}
