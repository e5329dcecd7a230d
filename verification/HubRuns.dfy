/**
  The hub's agents over whole runs: snapshots taken in, catalog writes applied later in any
  order or lost, and restarts that reload the registry from the catalog if it can be read.
 */
module HubRuns {
  import opened Sequences
  import opened SnapshotRing
  import opened AgentList

  /** A catalog write on its way, and an agent of the registry with its ring. */
  datatype Write = Write(agent: string, hostname: string, snap: Snapshot)
  datatype Live = Live(summary: Summary, ring: seq<Snapshot>)

  /** A row that reached the catalog, by an upsert or by the backfill at start-up. */
  datatype Change = Put(row: Record) | Fill(row: Record)

  /** For stating what must hold: the snapshots received since the last restart, and the log of the catalog. */
  datatype State = State(
    catalog: Catalog,
    registry: map<string, Live>,
    pending: seq<Write>,
    received: map<string, seq<Snapshot>>,
    log: seq<Change>)

  datatype Step =
    | Ingest(agent: string, hostname: string, snap: Snapshot, now: Text)
    | Upsert(i: nat, now: Text, works: bool)
    | Restart(fills: seq<Record>, hydrates: bool, status: string -> string)

  const INIT := State(map[], map[], [], map[], [])

  /** Size of an agent's ring. */
  const RING := 120

  function Received(received: map<string, seq<Snapshot>>, agent: string): seq<Snapshot> {
    if agent in received then received[agent] else []
  }

  function LiveSummary(agent: string, hostname: string, snap: Snapshot, now: Text): Summary {
    Summary(agent, hostname, "", now, "", snap.cpuLoad, snap.usedMemory, snap.totalMemory, snap.containers)
  }

  function RingOf(registry: map<string, Live>, agent: string): seq<Snapshot> {
    if agent in registry then registry[agent].ring else []
  }

  function Ingested(s: State, agent: string, hostname: string, snap: Snapshot, now: Text): State {
    var ring := LastN(RingOf(s.registry, agent) + [snap], RING);
    s.(registry := s.registry[agent := Live(LiveSummary(agent, hostname, snap, now), ring)],
       pending := s.pending + [Write(agent, hostname, snap)],
       received := s.received[agent := Received(s.received, agent) + [snap]])
  }

  function Changed(catalog: Catalog, change: Change): Catalog {
    match change case Put(row) => Upserted(catalog, row) case Fill(row) => Backfilled(catalog, row)
  }

  /** A pending write reaches the catalog or is lost; writes overtake each other. */
  function Written(s: State, i: nat, now: Text, works: bool): State
    requires i < |s.pending|
  {
    var w := s.pending[i];
    var left := s.(pending := s.pending[..i] + s.pending[i + 1..]);
    if !works then left
    else
      var change := Put(NewRecord(w.agent, w.hostname, w.snap, now));
      left.(catalog := Changed(s.catalog, change), log := s.log + [change])
  }

  function Filled(s: State, fills: seq<Record>): State {
    if fills == [] then s
    else
      var before := Filled(s, fills[..|fills| - 1]);
      var change := Fill(fills[|fills| - 1]);
      before.(catalog := Changed(before.catalog, change), log := before.log + [change])
  }

  function Hydrated(catalog: Catalog, status: string -> string): map<string, Live> {
    map id | id in catalog :: Live(WithStatus(FromRecord(catalog[id]), status), [])
  }

  function Restarted(s: State, fills: seq<Record>, hydrates: bool, status: string -> string): State {
    var filled := Filled(s, fills);
    State(filled.catalog, if hydrates then Hydrated(filled.catalog, status) else map[], [], map[], filled.log)
  }

  /** The hub refuses snapshots without an agent id. */
  predicate Enabled(s: State, step: Step) {
    match step
    case Ingest(agent, _, _, _) => agent != ""
    case Upsert(i, _, _) => i < |s.pending|
    case Restart(_, _, _) => true
  }

  function Apply(s: State, step: Step): State {
    if !Enabled(s, step) then s
    else
      match step
      case Ingest(agent, hostname, snap, now) => Ingested(s, agent, hostname, snap, now)
      case Upsert(i, now, works) => Written(s, i, now, works)
      case Restart(fills, hydrates, status) => Restarted(s, fills, hydrates, status)
  }

  function Exec(steps: seq<Step>): State {
    if steps == [] then INIT else Apply(Exec(steps[..|steps| - 1]), steps[|steps| - 1])
  }

  lemma ExecExtends(steps: seq<Step>, step: Step)
    ensures Exec(steps + [step]) == Apply(Exec(steps), step)
  {
  }

  // ---------- The catalog against its log ----------

  /** The first row that reached the catalog for an agent. */
  function FirstRow(log: seq<Change>, id: string): Option<Record> {
    if log == [] then None
    else
      var first := FirstRow(log[..|log| - 1], id);
      if first.None? && log[|log| - 1].row.agent == id then Some(log[|log| - 1].row) else first
  }

  /** The last row that counts: a backfill counts only as the first. */
  function LastRow(log: seq<Change>, id: string): Option<Record> {
    if log == [] then None
    else
      var last, before := log[|log| - 1], LastRow(log[..|log| - 1], id);
      if last.row.agent == id && (last.Put? || before.None?) then Some(last.row) else before
  }

  /** The catalog holds for each agent its last row with the first-seen time of its first. */
  ghost predicate CatalogIsLog(catalog: Catalog, log: seq<Change>) {
    forall id ::
      && (id in catalog <==> FirstRow(log, id).Some?)
      && (id in catalog <==> LastRow(log, id).Some?)
      && (id in catalog ==>
            catalog[id] == LastRow(log, id).value.(firstSeen := FirstRow(log, id).value.firstSeen)
            && catalog[id].agent == id)
  }

  ghost predicate RingsKept(s: State) {
    && (forall id | id in s.received :: id in s.registry && s.registry[id].ring == LastN(s.received[id], RING))
    && (forall id | id in s.registry && id !in s.received :: s.registry[id].ring == [])
    && (forall id | id in s.registry :: s.registry[id].summary.agent == id)
  }

  ghost predicate Inv(s: State) {
    CatalogIsLog(s.catalog, s.log) && RingsKept(s)
  }

  lemma ChangedKeepsLog(catalog: Catalog, log: seq<Change>, change: Change)
    requires CatalogIsLog(catalog, log)
    ensures CatalogIsLog(Changed(catalog, change), log + [change])
  {
  }

  lemma {:induction false} FilledKeepsLog(s: State, fills: seq<Record>)
    requires CatalogIsLog(s.catalog, s.log)
    ensures CatalogIsLog(Filled(s, fills).catalog, Filled(s, fills).log)
  {
    if fills != [] {
      var before := Filled(s, fills[..|fills| - 1]);
      FilledKeepsLog(s, fills[..|fills| - 1]);
      ChangedKeepsLog(before.catalog, before.log, Fill(fills[|fills| - 1]));
    }
  }

  lemma IngestedKeepsRings(s: State, agent: string, hostname: string, snap: Snapshot, now: Text)
    requires RingsKept(s)
    ensures RingsKept(Ingested(s, agent, hostname, snap, now))
  {
  }

  lemma HydratedRings(catalog: Catalog, status: string -> string)
    requires forall id | id in catalog :: catalog[id].agent == id
    ensures forall id | id in Hydrated(catalog, status) ::
      Hydrated(catalog, status)[id].ring == [] && Hydrated(catalog, status)[id].summary.agent == id
  {
  }

  lemma StepKeeps(s: State, step: Step)
    requires Inv(s)
    ensures Inv(Apply(s, step))
  {
    if Enabled(s, step) {
      match step
      case Ingest(agent, hostname, snap, now) => IngestedKeepsRings(s, agent, hostname, snap, now);
      case Upsert(i, now, works) =>
        var w := s.pending[i];
        if works {
          ChangedKeepsLog(s.catalog, s.log, Put(NewRecord(w.agent, w.hostname, w.snap, now)));
        }
      case Restart(fills, hydrates, status) =>
        FilledKeepsLog(s, fills);
        HydratedRings(Filled(s, fills).catalog, status);
    }
  }

  lemma {:induction false} RunInv(steps: seq<Step>)
    ensures Inv(Exec(steps))
  {
    if steps != [] {
      RunInv(steps[..|steps| - 1]);
      StepKeeps(Exec(steps[..|steps| - 1]), steps[|steps| - 1]);
    }
  }

  // ---------- What stays over runs ----------

  lemma {:induction false} FilledKeepsFirst(s: State, fills: seq<Record>, id: string)
    requires id in s.catalog
    ensures var s' := Filled(s, fills); id in s'.catalog && s'.catalog[id] == s.catalog[id]
  {
    if fills != [] {
      FilledKeepsFirst(s, fills[..|fills| - 1], id);
    }
  }

  lemma StepKeepsFirst(s: State, step: Step, id: string)
    requires id in s.catalog
    ensures var s' := Apply(s, step); id in s'.catalog && s'.catalog[id].firstSeen == s.catalog[id].firstSeen
  {
    if step.Restart? {
      FilledKeepsFirst(s, step.fills, id);
    }
  }

  /** A catalogued agent never disappears, and its first-seen time never changes, whatever happens after. */
  lemma {:induction false} CataloguedForever(steps: seq<Step>, more: seq<Step>, id: string)
    requires id in Exec(steps).catalog
    ensures var s, s' := Exec(steps), Exec(steps + more);
      id in s'.catalog && s'.catalog[id].firstSeen == s.catalog[id].firstSeen
  {
    if more == [] {
      assert steps + more == steps;
    } else {
      var front, step := more[..|more| - 1], more[|more| - 1];
      CataloguedForever(steps, front, id);
      assert steps + more == (steps + front) + [step];
      ExecExtends(steps + front, step);
      StepKeepsFirst(Exec(steps + front), step, id);
    }
  }

  function Summaries(registry: map<string, Live>): map<string, Summary> {
    map id | id in registry :: registry[id].summary
  }

  /**
    A catalog write that works notes the agent's snapshot in its row and keeps the first-seen
    time it had; all other rows stay.
   */
  lemma UpsertNotes(s: State, i: nat, now: Text)
    requires CatalogIsLog(s.catalog, s.log) && i < |s.pending|
    ensures var w, catalog := s.pending[i], Apply(s, Upsert(i, now, true)).catalog;
      && Apply(s, Upsert(i, now, true)).pending == s.pending[..i] + s.pending[i + 1..]
      && w.agent in catalog && Noted(catalog[w.agent], w.agent, w.hostname, w.snap, now)
      && catalog[w.agent].firstSeen
         == (if w.agent in s.catalog then s.catalog[w.agent].firstSeen else catalog[w.agent].lastSeen)
      && forall id | id != w.agent ::
           (id in catalog <==> id in s.catalog) && (id in catalog ==> catalog[id] == s.catalog[id])
    ensures Apply(s, Upsert(i, now, false)) == s.(pending := s.pending[..i] + s.pending[i + 1..])
  {
  }

  /** After a restart that can read the catalog the registry has each catalogued agent, with its row's data, alone. */
  lemma RestartShows(s: State, fills: seq<Record>, status: string -> string)
    ensures var s' := Apply(s, Restart(fills, true, status));
      && s'.registry.Keys == s'.catalog.Keys
      && forall id | id in s'.registry ::
           && Copies(s'.registry[id].summary, s'.catalog[id]) && s'.registry[id].ring == []
           && s'.registry[id].summary.status == status(s'.catalog[id].lastSeen)
    ensures Apply(s, Restart(fills, false, status)).registry == map[]
  {
  }

  /** A snapshot taken in is the newest of its agent, whose row then has its data; the other agents stay as they are. */
  lemma IngestShows(s: State, agent: string, hostname: string, snap: Snapshot, now: Text)
    requires agent != ""
    ensures var s' := Apply(s, Ingest(agent, hostname, snap, now));
      && agent in s'.registry && Shown(s'.registry[agent].summary, agent, hostname, snap, now)
      && s'.registry[agent].ring != [] && s'.registry[agent].ring[|s'.registry[agent].ring| - 1] == snap
      && s'.registry.Keys == s.registry.Keys + {agent} && s'.catalog == s.catalog
      && s'.pending == s.pending + [Write(agent, hostname, snap)]
      && forall id | id in s.registry && id != agent :: s'.registry[id] == s.registry[id]
  {
  }

  /** A live row: the snapshot's data, seen now, without a first-seen time or a status of its own. */
  ghost predicate Shown(a: Summary, agent: string, hostname: string, snap: Snapshot, now: Text) {
    && a.agent == agent && a.hostname == hostname && a.lastSeen == now && a.firstSeen == "" && a.status == ""
    && a.cpuLoad == snap.cpuLoad && a.usedMemory == snap.usedMemory && a.totalMemory == snap.totalMemory
    && a.containers == snap.containers
  }

  /**
    The agent list over runs: merging any list of the registry with the rows of the catalog,
    in whatever orders, gives one row for each agent of either and no other; a catalogued
    agent's first-seen time is the one of the first row that ever reached the catalog, as
    long as that row has one, which every upserted row does.
   */
  lemma AgentListOverRuns(steps: seq<Step>, rows: seq<Record>, live: seq<Summary>, id: string)
    requires RowsOf(rows, Exec(steps).catalog) && ListOf(live, Summaries(Exec(steps).registry))
    ensures var s, table := Exec(steps), MergedById(rows, live);
      && (id in table <==> id in s.catalog || id in s.registry)
      && (id in s.catalog ==>
            FirstRow(s.log, id).Some? &&
            var first := FirstRow(s.log, id).value.firstSeen;
            table[id].firstSeen == if first == "" && id in s.registry then s.registry[id].summary.firstSeen else first)
      && (if id in s.registry
          then table[id] == s.registry[id].summary.(firstSeen := table[id].firstSeen)
          else id in s.catalog ==> Copies(table[id], s.catalog[id]))
  {
    var s := Exec(steps);
    RunInv(steps);
    MergeShows(rows, s.catalog, live, Summaries(s.registry));
  }

  /** An agent's history is the last min(k, 120) snapshots taken in since the last restart. */
  lemma HistoryOverRuns(steps: seq<Step>, agent: string, k: nat)
    requires k > 0
    ensures var s := Exec(steps);
      LastN(RingOf(s.registry, agent), k) == LastN(Received(s.received, agent), if k < 120 then k else 120)
  {
    RunInv(steps);
    LastOfLast(Received(Exec(steps).received, agent), RING, k);
  }
}
