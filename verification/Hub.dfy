/** The live registry as an object, and the list of agents the hub answers with. */
module Hub {
  import opened Sequences
  import opened SnapshotRing
  import opened AgentList
  import opened HubRuns

  /** An agent's summary and the store of its recent snapshots. */
  datatype Entry = Entry(summary: Summary, store: SnapshotStore)

  lemma HasRowPush(rows: seq<Summary>, row: Summary)
    ensures forall id :: HasRow(rows + [row], id) <==> HasRow(rows, id) || row.agent == id
  {
    var rows' := rows + [row];
    forall id ensures HasRow(rows', id) <==> HasRow(rows, id) || row.agent == id {
      if HasRow(rows, id) {
        var i :| 0 <= i < |rows| && rows[i].agent == id;
        assert rows'[i].agent == id;
      }
      if row.agent == id {
        assert rows'[|rows|].agent == id;
      }
    }
  }

  /** A store that has the newest of everything it was given. */
  ghost predicate Keeps(store: SnapshotStore, all: seq<Snapshot>)
    reads store
  {
    store.Valid() && store.capacity == RING && store.history == LastN(all, RING)
  }

  ghost function SummariesOf(agents: map<string, Entry>): map<string, Summary> {
    map id | id in agents :: agents[id].summary
  }

  /** Goes through the entries in an order of its own. */
  method ListEntries(all: map<string, Entry>) returns (out: seq<Summary>)
    requires forall id | id in all :: all[id].summary.agent == id
    ensures ListOf(out, SummariesOf(all))
  {
    out := [];
    var left := all.Keys;
    while left != {}
      invariant left <= all.Keys
      invariant forall i | 0 <= i < |out| ::
        out[i].agent in all && out[i].agent !in left && out[i] == all[out[i].agent].summary
      invariant forall id | id in all && id !in left :: HasRow(out, id)
      invariant forall i, j | 0 <= i < j < |out| :: out[i].agent != out[j].agent
    {
      var id :| id in left;
      HasRowPush(out, all[id].summary);
      out := out + [all[id].summary];
      left := left - {id};
    }
  }

  predicate Seeded(agents: map<string, Entry>, s: Summary) {
    s.agent in agents && agents[s.agent].summary == s
  }

  /** No earlier row is about the same agent. */
  ghost predicate FirstOfAgent(rows: seq<Summary>, i: nat)
    requires i < |rows|
  {
    forall j | 0 <= j < i :: rows[j].agent != rows[i].agent
  }

  /** Agents already there are as before, the others are seeded with their first row, and there are no more. */
  ghost predicate HydratedWith(before: map<string, Entry>, agents: map<string, Entry>, summaries: seq<Summary>) {
    && (forall id | id in before :: id in agents && agents[id] == before[id])
    && (forall id :: id in agents <==> id in before || HasRow(summaries, id))
    && (forall i | 0 <= i < |summaries| && summaries[i].agent !in before && FirstOfAgent(summaries, i) ::
          Seeded(agents, summaries[i]))
  }

  /** The first rows of their agents stay seeded when one more row is looked at. */
  lemma SeededStays(before: map<string, Entry>, agents: map<string, Entry>, agents': map<string, Entry>,
                    rows: seq<Summary>, row: Summary, j: nat)
    requires HydratedWith(before, agents, rows) && j < |rows| && FirstOfAgent(rows, j) && rows[j].agent !in before
    requires forall id | id in agents :: id in agents' && agents'[id] == agents[id]
    ensures Seeded(agents', rows[j])
  {
  }

  lemma HydrateStep(before: map<string, Entry>, agents: map<string, Entry>, agents': map<string, Entry>,
                    rows: seq<Summary>, row: Summary)
    requires HydratedWith(before, agents, rows)
    requires agents'.Keys == agents.Keys + {row.agent}
    requires row.agent !in agents ==> Seeded(agents', row)
    requires forall id | id in agents :: agents'[id] == agents[id]
    ensures HydratedWith(before, agents', rows + [row])
  {
    var rows' := rows + [row];
    HasRowPush(rows, row);
    forall j | 0 <= j < |rows'| && rows'[j].agent !in before && FirstOfAgent(rows', j)
      ensures Seeded(agents', rows'[j])
    {
      if j < |rows| {
        assert forall i | 0 <= i < j :: rows[i] == rows'[i];
        SeededStays(before, agents, agents', rows, row, j);
      } else {
        assert forall i | 0 <= i < |rows| :: rows[i] == rows'[i];
        assert !HasRow(rows, row.agent);
      }
    }
  }

  class Registry {
    var agents: map<string, Entry>
    /** Everything taken in since the registry was made. */
    ghost var received: map<string, seq<Snapshot>>

    ghost predicate Valid()
      reads this, set id | id in agents :: agents[id].store
    {
      && (forall id | id in agents :: Keeps(agents[id].store, Received(received, id)))
      && (forall id, other | id in agents && other in agents && id != other :: agents[id].store != agents[other].store)
      && (forall id | id in received :: id in agents)
      && (forall id | id in agents :: agents[id].summary.agent == id)
    }

    /** The registry as the step machine sees it. */
    ghost function View(): map<string, Live>
      reads this, set id | id in agents :: agents[id].store
    {
      map id | id in agents :: Live(agents[id].summary, agents[id].store.history)
    }

    constructor ()
      ensures Valid() && View() == map[] && received == map[]
    {
      agents := map[];
      received := map[];
    }

    /** The agent's entry, made with an empty store on its first snapshot. */
    method MakeEntry(agent: string)
      requires Valid() && agent !in agents
      modifies this`agents
      ensures Valid() && agents.Keys == old(agents.Keys) + {agent}
      ensures fresh(agents[agent].store) && agents[agent].store.history == []
      ensures forall id | id in old(agents) :: agents[id] == old(agents[id])
    {
      var store := new SnapshotStore(120);
      agents := agents[agent := Entry(Summary(agent, "", "", "", "", 0.0, 0, 0, 0), store)];
    }

    method PushTo(agent: string, hostname: string, snap: Snapshot, now: Text)
      requires Valid() && agent in agents
      modifies this, agents[agent].store
      ensures Valid() && received == old(received)[agent := Received(old(received), agent) + [snap]]
      ensures agents.Keys == old(agents.Keys)
      ensures agents[agent] == Entry(LiveSummary(agent, hostname, snap, now), old(agents[agent].store))
      ensures forall id | id in old(agents) && id != agent :: agents[id] == old(agents[id])
    {
      ghost var all := Received(received, agent);
      var store := agents[agent].store;
      store.Push(snap, all);
      received := received[agent := all + [snap]];
      var summary := Summary(agent, hostname, "", now, "",
                             snap.cpuLoad, snap.usedMemory, snap.totalMemory, snap.containers);
      agents := agents[agent := Entry(summary, store)];
    }

    /** Takes in a snapshot: the agent's summary is replaced and its store keeps the newest 120. */
    method Ingest(agent: string, hostname: string, snap: Snapshot, now: Text)
      requires Valid()
      modifies this, set id | id in agents :: agents[id].store
      ensures Valid() && received == old(received)[agent := Received(old(received), agent) + [snap]]
      ensures agents.Keys == old(agents.Keys) + {agent}
      ensures agents[agent].summary == LiveSummary(agent, hostname, snap, now)
      ensures Shown(agents[agent].summary, agent, hostname, snap, now)
      ensures agents[agent].store.history == LastN(Received(received, agent), 120)
      ensures forall id | id in old(agents) && id != agent ::
        agents[id] == old(agents[id]) && agents[id].store.history == old(agents[id].store.history)
    {
      if agent !in agents {
        MakeEntry(agent);
      }
      PushTo(agent, hostname, snap, now);
    }

    /** An entry for a catalogued agent, unless it has one. */
    method Seed(s: Summary)
      requires Valid()
      modifies this`agents
      ensures Valid() && agents.Keys == old(agents.Keys) + {s.agent}
      ensures s.agent !in old(agents) ==> Seeded(agents, s)
      ensures forall id | id in old(agents) :: agents[id] == old(agents[id])
    {
      if s.agent in agents {
        return;
      }
      var store := new SnapshotStore(120);
      agents := agents[s.agent := Entry(s, store)];
    }

    method SeedAfter(s: Summary, ghost before: map<string, Entry>, ghost done: seq<Summary>)
      requires Valid() && HydratedWith(before, agents, done)
      modifies this`agents
      ensures Valid() && HydratedWith(before, agents, done + [s])
    {
      ghost var so := agents;
      Seed(s);
      HydrateStep(before, so, agents, done, s);
    }

    /** Seeds the registry from catalog rows after a restart, with no snapshots; agents already there stay. */
    method Hydrate(summaries: seq<Summary>)
      requires Valid()
      modifies this`agents
      ensures Valid() && HydratedWith(old(agents), agents, summaries)
    {
      ghost var before := agents;
      if |summaries| == 0 {
        return;
      }
      var i := 0;
      ghost var done: seq<Summary> := [];
      while i < |summaries|
        invariant 0 <= i <= |summaries| && done == summaries[..i]
        invariant Valid() && HydratedWith(before, agents, done)
      {
        assert summaries[..i + 1] == done + [summaries[i]];
        SeedAfter(summaries[i], before, done);
        done := summaries[..i + 1];
        i := i + 1;
      }
      assert summaries[..i] == summaries;
    }

    /** One row for each agent, in no particular order. */
    method ListAgents() returns (out: seq<Summary>)
      requires Valid()
      ensures ListOf(out, Summaries(View()))
    {
      assert Summaries(View()) == SummariesOf(agents);
      out := ListEntries(agents);
    }

    /** The newest snapshots of an agent since the registry was made, at most 120. */
    method History(agent: string, limit: int) returns (out: seq<Snapshot>)
      requires Valid()
      ensures IsEnd(out, Received(received, agent), if limit <= 0 then 0 else if limit < 120 then limit else 120)
    {
      if agent !in agents {
        return [];
      }
      out := agents[agent].store.History(limit, Received(received, agent));
    }

    method Latest(agent: string) returns (latest: Option<Snapshot>)
      requires Valid()
      ensures var all := Received(received, agent);
        latest == if all == [] then None else Some(all[|all| - 1])
    {
      if agent !in agents {
        return None;
      }
      latest := agents[agent].store.Latest();
    }
  }

  // ---------- The list the hub answers with ----------

  /** The history store, if there is one, and what its catalog query returns, if it works. */
  datatype CatalogQuery = NoHistory | Failed | Rows(rows: seq<Record>)

  /** Fills in the status of each row. */
  method WithFreshStatus(live: seq<Summary>, status: string -> string) returns (out: seq<Summary>)
    ensures |out| == |live| && forall i | 0 <= i < |out| :: out[i] == WithStatus(live[i], status)
    ensures forall i | 0 <= i < |out| :: SameBut(out[i], live[i], status(live[i].lastSeen))
  {
    out := [];
    var i := 0;
    while i < |live|
      invariant 0 <= i <= |live| && |out| == i
      invariant forall j | 0 <= j < i :: out[j] == WithStatus(live[j], status)
    {
      var a := live[i];
      a := a.(status := status(a.lastSeen));
      out := out + [a];
      i := i + 1;
    }
  }

  /** The rows to show: the merge with the catalog, or the live agents alone when the catalog cannot be read. */
  ghost predicate Answers(out: seq<Summary>, query: CatalogQuery, catalog: Catalog, live: map<string, Summary>,
                          status: string -> string) {
    exists table: map<string, Summary> ::
      && ListOf(out, WithStatuses(table, status))
      && if query.Rows? then Shows(table, catalog, live) else table == live
  }

  lemma Answering(out: seq<Summary>, table: map<string, Summary>, query: CatalogQuery, catalog: Catalog,
                  live: map<string, Summary>, status: string -> string)
    requires ListOf(out, WithStatuses(table, status))
    requires if query.Rows? then Shows(table, catalog, live) else table == live
    ensures Answers(out, query, catalog, live, status)
  {
  }

  lemma {:induction false} StatusKeepsList(
      live: seq<Summary>, table: map<string, Summary>, out: seq<Summary>, status: string -> string)
    requires ListOf(live, table)
    requires |out| == |live| && forall i | 0 <= i < |out| :: out[i] == WithStatus(live[i], status)
    ensures ListOf(out, WithStatuses(table, status))
  {
    forall id | id in table ensures HasRow(out, id) {
      assert HasRow(live, id);
      var i :| 0 <= i < |live| && live[i].agent == id;
      assert out[i].agent == id;
    }
  }

  /** With no live agents, the catalog's rows alone are what the merge would show. */
  lemma {:induction false} CatalogAloneShows(
      rows: seq<Record>, catalog: Catalog, out: seq<Summary>, status: string -> string)
    requires RowsOf(rows, catalog)
    requires |out| == |rows| && forall i | 0 <= i < |out| :: out[i] == WithStatus(FromRecord(rows[i]), status)
    ensures Shows(CatalogById(rows), catalog, map[]) && ListOf(out, WithStatuses(CatalogById(rows), status))
  {
    CatalogByIdOf(rows, catalog);
    var table := CatalogById(rows);
    forall id | id in table ensures HasRow(out, id) {
      var i :| 0 <= i < |rows| && rows[i].agent == id;
      assert out[i].agent == id;
    }
  }

  /** listAgentsWithStatus: one row for each agent of the catalog or the registry. */
  method ListAgentsWithStatus(registry: Registry, query: CatalogQuery, ghost catalog: Catalog, status: string -> string)
    returns (out: seq<Summary>)
    requires registry.Valid() && (query.Rows? ==> RowsOf(query.rows, catalog))
    ensures Answers(out, query, catalog, Summaries(registry.View()), status)
    ensures forall i | 0 <= i < |out| :: out[i].status == status(out[i].lastSeen)
  {
    var live := registry.ListAgents();
    ghost var registered := Summaries(registry.View());
    out := Listed(live, registered, query, catalog, status);
  }

  method Listed(live: seq<Summary>, ghost registered: map<string, Summary>, query: CatalogQuery, ghost catalog: Catalog,
                status: string -> string)
    returns (out: seq<Summary>)
    requires ListOf(live, registered) && (query.Rows? ==> RowsOf(query.rows, catalog))
    ensures Answers(out, query, catalog, registered, status)
    ensures forall i | 0 <= i < |out| :: out[i].status == status(out[i].lastSeen)
  {
    if !query.Rows? {
      out := WithFreshStatus(live, status);
      StatusKeepsList(live, registered, out, status);
      Answering(out, registered, query, catalog, registered, status);
      return;
    }
    if |live| == 0 {
      out := SummariesFromCatalog(query.rows, status);
      CatalogAloneShows(query.rows, catalog, out, status);
      NobodyLive(registered);
      Answering(out, CatalogById(query.rows), query, catalog, registered, status);
      return;
    }
    out := MergeAgentSummaries(query.rows, live, status);
    MergeShows(query.rows, catalog, live, registered);
    Answering(out, MergedById(query.rows, live), query, catalog, registered, status);
  }

  lemma NobodyLive(registered: map<string, Summary>)
    requires ListOf([], registered)
    ensures registered == map[]
  {
    assert forall id | id in registered :: HasRow([], id);
  }
}
