/** The persistent agent catalog and its merge with the live registry. */
module AgentList {
  import opened SnapshotRing

  /** A formatted time is never empty. */
  type Text = s: string | s != "" witness "0"

  /** A row of hub_agents. */
  datatype Record = Record(
    agent: string, hostname: string, firstSeen: string, lastSeen: string,
    cpuLoad: real, usedMemory: int, totalMemory: int, containers: nat)

  datatype Summary = Summary(
    agent: string, hostname: string, firstSeen: string, lastSeen: string, status: string,
    cpuLoad: real, usedMemory: int, totalMemory: int, containers: nat)

  type Catalog = map<string, Record>

  // ---------- The catalog ----------

  function LastSeenOf(snap: Snapshot, now: Text): string {
    if snap.collectedAt == "" then now else snap.collectedAt
  }

  /** The row an upsert inserts. */
  function NewRecord(agent: string, hostname: string, snap: Snapshot, now: Text): Record {
    var seen := LastSeenOf(snap, now);
    Record(agent, if hostname == "" then agent else hostname, seen, seen,
           snap.cpuLoad, snap.usedMemory, snap.totalMemory, snap.containers)
  }

  /** A row notes a snapshot: its data, when it was collected or else now, and a hostname or else the agent's id. */
  ghost predicate Noted(r: Record, agent: string, hostname: string, snap: Snapshot, now: Text) {
    && r.agent == agent && r.hostname == (if hostname == "" then agent else hostname)
    && r.lastSeen == (if snap.collectedAt == "" then now else snap.collectedAt)
    && r.cpuLoad == snap.cpuLoad && r.usedMemory == snap.usedMemory && r.totalMemory == snap.totalMemory
    && r.containers == snap.containers
  }

  /** INSERT ... ON CONFLICT DO UPDATE: everything but the first-seen time is overwritten. */
  function Upserted(catalog: Catalog, row: Record): Catalog {
    catalog[row.agent := if row.agent in catalog then row.(firstSeen := catalog[row.agent].firstSeen) else row]
  }

  /** INSERT ... ON CONFLICT DO NOTHING. */
  function Backfilled(catalog: Catalog, row: Record): Catalog {
    if row.agent in catalog then catalog else catalog[row.agent := row]
  }

  ghost predicate KeyedByAgent(catalog: Catalog) {
    forall id | id in catalog :: catalog[id].agent == id
  }

  /** The rows a query of the whole table returns: each once, in some order. */
  ghost predicate RowsOf(rows: seq<Record>, catalog: Catalog) {
    && (forall i | 0 <= i < |rows| :: rows[i].agent in catalog && catalog[rows[i].agent] == rows[i])
    && (forall id | id in catalog :: exists i :: 0 <= i < |rows| && rows[i].agent == id)
    && (forall i, j | 0 <= i < j < |rows| :: rows[i].agent != rows[j].agent)
  }

  // ---------- Summaries ----------

  function FromRecord(r: Record): Summary {
    Summary(r.agent, r.hostname, r.firstSeen, r.lastSeen, "", r.cpuLoad, r.usedMemory, r.totalMemory, r.containers)
  }

  /** A summary with the data of a catalog row, field by field. */
  ghost predicate Copies(a: Summary, r: Record) {
    && a.agent == r.agent && a.hostname == r.hostname
    && a.firstSeen == r.firstSeen && a.lastSeen == r.lastSeen
    && a.cpuLoad == r.cpuLoad && a.usedMemory == r.usedMemory && a.totalMemory == r.totalMemory
    && a.containers == r.containers
  }

  /** The same row but for its status. */
  ghost predicate SameBut(a: Summary, b: Summary, status: string) {
    a.status == status && a.(status := b.status) == b
  }

  /** The status computed from the last-seen time at the moment of the call. */
  function WithStatus(a: Summary, status: string -> string): Summary {
    a.(status := status(a.lastSeen))
  }

  /** A live row keeps the first-seen time already known for its agent. */
  function Overlaid(byId: map<string, Summary>, a: Summary): map<string, Summary> {
    byId[a.agent :=
      if a.agent in byId && byId[a.agent].firstSeen != "" then a.(firstSeen := byId[a.agent].firstSeen) else a]
  }

  function CatalogById(rows: seq<Record>): map<string, Summary> {
    if rows == [] then map[]
    else CatalogById(rows[..|rows| - 1])[rows[|rows| - 1].agent := FromRecord(rows[|rows| - 1])]
  }

  function MergedById(rows: seq<Record>, live: seq<Summary>): map<string, Summary> {
    if live == [] then CatalogById(rows)
    else Overlaid(MergedById(rows, live[..|live| - 1]), live[|live| - 1])
  }

  ghost predicate HasRow(out: seq<Summary>, id: string) {
    exists i :: 0 <= i < |out| && out[i].agent == id
  }

  /** A list with exactly the rows of a table, one for each agent. */
  ghost predicate ListOf(out: seq<Summary>, table: map<string, Summary>) {
    && (forall i | 0 <= i < |out| :: out[i].agent in table && out[i] == table[out[i].agent])
    && (forall id | id in table :: HasRow(out, id))
    && (forall i, j | 0 <= i < j < |out| :: out[i].agent != out[j].agent)
  }

  ghost predicate DistinctAgents(live: seq<Summary>) {
    forall i, j | 0 <= i < j < |live| :: live[i].agent != live[j].agent
  }

  ghost predicate KeyedSummaries(byId: map<string, Summary>) {
    forall id | id in byId :: byId[id].agent == id
  }

  /** The table a list has to show: every catalogued or live agent, live data first, first-seen from the catalog. */
  ghost predicate Shows(table: map<string, Summary>, catalog: Catalog, live: map<string, Summary>) {
    && table.Keys == catalog.Keys + live.Keys
    && forall id | id in table ::
         if id !in live then Copies(table[id], catalog[id]) && table[id].status == ""
         else if id in catalog && catalog[id].firstSeen != ""
         then table[id] == live[id].(firstSeen := catalog[id].firstSeen)
         else table[id] == live[id]
  }

  lemma {:induction false} CatalogByIdAt(rows: seq<Record>, id: string)
    requires forall i, j | 0 <= i < j < |rows| :: rows[i].agent != rows[j].agent
    ensures id in CatalogById(rows) <==> exists i :: 0 <= i < |rows| && rows[i].agent == id
    ensures forall i | 0 <= i < |rows| && rows[i].agent == id ::
      id in CatalogById(rows) && CatalogById(rows)[id] == FromRecord(rows[i])
  {
    if rows != [] {
      CatalogByIdAt(rows[..|rows| - 1], id);
    }
  }

  lemma CatalogByIdOf(rows: seq<Record>, catalog: Catalog)
    requires RowsOf(rows, catalog)
    ensures CatalogById(rows).Keys == catalog.Keys
    ensures forall id | id in catalog :: CatalogById(rows)[id] == FromRecord(catalog[id])
  {
    forall id
      ensures id in CatalogById(rows) <==> id in catalog
      ensures id in catalog ==> CatalogById(rows)[id] == FromRecord(catalog[id])
    {
      CatalogByIdAt(rows, id);
    }
  }

  lemma {:induction false} MergedAt(rows: seq<Record>, live: seq<Summary>, id: string)
    requires DistinctAgents(live)
    ensures var byId, base := MergedById(rows, live), CatalogById(rows);
      && (id in byId <==> id in base || HasRow(live, id))
      && (forall i | 0 <= i < |live| && live[i].agent == id ::
            id in byId && byId[id] ==
              if id in base && base[id].firstSeen != "" then live[i].(firstSeen := base[id].firstSeen) else live[i])
      && ((forall i | 0 <= i < |live| :: live[i].agent != id) && id in base ==> byId[id] == base[id])
  {
    if live != [] {
      MergedAt(rows, live[..|live| - 1], id);
    }
  }

  /** Merging the rows of the catalog with a list of the registry shows what has to be shown. */
  lemma MergeShows(rows: seq<Record>, catalog: Catalog, live: seq<Summary>, registry: map<string, Summary>)
    requires RowsOf(rows, catalog) && ListOf(live, registry)
    ensures Shows(MergedById(rows, live), catalog, registry)
  {
    CatalogByIdOf(rows, catalog);
    forall id ensures id in MergedById(rows, live) <==> id in catalog || id in registry {
      MergedAt(rows, live, id);
    }
    forall id | id in MergedById(rows, live)
      ensures var row := MergedById(rows, live)[id];
        if id !in registry then Copies(row, catalog[id]) && row.status == ""
        else if id in catalog && catalog[id].firstSeen != ""
        then row == registry[id].(firstSeen := catalog[id].firstSeen)
        else row == registry[id]
    {
      MergedAt(rows, live, id);
    }
  }

  // ---------- The methods ----------

  method SummariesFromCatalog(rows: seq<Record>, status: string -> string) returns (out: seq<Summary>)
    ensures |out| == |rows| && forall i | 0 <= i < |out| :: out[i] == WithStatus(FromRecord(rows[i]), status)
    ensures forall i | 0 <= i < |out| :: Copies(out[i], rows[i]) && out[i].status == status(rows[i].lastSeen)
  {
    out := [];
    var i := 0;
    while i < |rows|
      invariant 0 <= i <= |rows| && |out| == i
      invariant forall j | 0 <= j < i :: out[j] == WithStatus(FromRecord(rows[j]), status)
    {
      var rec := rows[i];
      var a := Summary(rec.agent, rec.hostname, rec.firstSeen, rec.lastSeen, "",
                       rec.cpuLoad, rec.usedMemory, rec.totalMemory, rec.containers);
      a := a.(status := status(a.lastSeen));
      out := out + [a];
      i := i + 1;
    }
  }

  /** A table with the status filled in. */
  function WithStatuses(table: map<string, Summary>, status: string -> string): map<string, Summary> {
    map id | id in table :: WithStatus(table[id], status)
  }

  /** Overlays live rows onto the catalog: one row for each agent of either. */
  method MergeAgentSummaries(rows: seq<Record>, live: seq<Summary>, status: string -> string)
    returns (out: seq<Summary>)
    ensures ListOf(out, WithStatuses(MergedById(rows, live), status))
    ensures forall i | 0 <= i < |out| :: out[i].status == status(out[i].lastSeen)
  {
    var byId: map<string, Summary> := map[];
    var i := 0;
    while i < |rows|
      invariant 0 <= i <= |rows| && KeyedSummaries(byId) && byId == CatalogById(rows[..i])
    {
      assert rows[..i + 1][..i] == rows[..i];
      byId := byId[rows[i].agent := FromRecord(rows[i])];
      i := i + 1;
    }
    assert rows[..i] == rows && live[..0] == [];
    i := 0;
    while i < |live|
      invariant 0 <= i <= |live| && KeyedSummaries(byId) && byId == MergedById(rows, live[..i])
    {
      assert live[..i + 1][..i] == live[..i];
      var a := live[i];
      if a.agent in byId {
        var existing := byId[a.agent];
        if existing.firstSeen != "" {
          a := a.(firstSeen := existing.firstSeen);
        }
      }
      byId := byId[a.agent := a];
      i := i + 1;
    }
    assert live[..i] == live;
    out := ListWithStatus(byId, status);
  }

  /** Goes through a table in an order of its own. */
  method ListWithStatus(byId: map<string, Summary>, status: string -> string) returns (out: seq<Summary>)
    requires KeyedSummaries(byId)
    ensures ListOf(out, WithStatuses(byId, status))
  {
    out := [];
    var left := byId.Keys;
    while left != {}
      invariant left <= byId.Keys
      invariant forall i | 0 <= i < |out| ::
        out[i].agent in byId && out[i].agent !in left && out[i] == WithStatus(byId[out[i].agent], status)
      invariant forall id | id in byId && id !in left :: HasRow(out, id)
      invariant forall i, j | 0 <= i < j < |out| :: out[i].agent != out[j].agent
    {
      var id :| id in left;
      var before := out;
      out := out + [WithStatus(byId[id], status)];
      left := left - {id};
      assert out[|before|].agent == id;
      forall other | other in byId && other !in left ensures HasRow(out, other) {
        if other != id {
          var i :| 0 <= i < |before| && before[i].agent == other;
          assert out[i].agent == other;
        }
      }
    }
  }
}
