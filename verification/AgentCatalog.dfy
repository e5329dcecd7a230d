/** The persistent agent catalog: rows upserted in place, listed newest first. */
module AgentCatalog {
  import opened Sequences
  import opened Timestamps
  import opened SnapshotRing
  import opened AgentList

  ghost predicate NewestFirst(rows: seq<Record>) {
    forall i, j | 0 <= i < j < |rows| :: !TextLess(rows[i].lastSeen, rows[j].lastSeen)
  }

  predicate IsNewest(catalog: Catalog, ids: set<string>, m: string) {
    && m in ids && m in catalog
    && forall id | id in ids && id in catalog :: !TextLess(catalog[m].lastSeen, catalog[id].lastSeen)
  }

  lemma {:induction false} SomeNewest(catalog: Catalog, ids: set<string>)
    requires ids != {} && ids <= catalog.Keys
    ensures exists m :: IsNewest(catalog, ids, m)
  {
    var x :| x in ids;
    var rest := ids - {x};
    assert ids == rest + {x};
    Irreflexive(catalog[x].lastSeen);
    if rest == {} {
      assert IsNewest(catalog, ids, x);
    } else {
      SomeNewest(catalog, rest);
      var m :| IsNewest(catalog, rest, m);
      var newer := if TextLess(catalog[m].lastSeen, catalog[x].lastSeen) then x else m;
      forall id | id in ids ensures !TextLess(catalog[newer].lastSeen, catalog[id].lastSeen) {
        if id != x {
          TextTransitive(catalog[m].lastSeen, catalog[x].lastSeen, catalog[id].lastSeen);
        }
      }
      assert IsNewest(catalog, ids, newer);
    }
  }

  ghost predicate RowOf(rows: seq<Record>, id: string) {
    exists i :: 0 <= i < |rows| && rows[i].agent == id
  }

  /** The ids outside `left` are listed once each, and none that is left is newer than a listed one. */
  ghost predicate ListedSoFar(rows: seq<Record>, catalog: Catalog, left: set<string>) {
    && (forall i | 0 <= i < |rows| ::
          rows[i].agent in catalog && rows[i].agent !in left && catalog[rows[i].agent] == rows[i])
    && (forall id | id in catalog && id !in left :: RowOf(rows, id))
    && (forall i, j | 0 <= i < j < |rows| :: rows[i].agent != rows[j].agent)
    && NewestFirst(rows)
    && (forall i, id | 0 <= i < |rows| && id in left && id in catalog ::
          !TextLess(rows[i].lastSeen, catalog[id].lastSeen))
  }

  lemma ListOneMore(rows: seq<Record>, catalog: Catalog, left: set<string>, m: string)
    requires KeyedByAgent(catalog) && ListedSoFar(rows, catalog, left) && IsNewest(catalog, left, m)
    ensures ListedSoFar(rows + [catalog[m]], catalog, left - {m})
  {
    var rows' := rows + [catalog[m]];
    assert rows'[|rows|].agent == m;
    forall id | id in catalog && id !in left - {m} ensures RowOf(rows', id) {
      if id != m {
        var i :| 0 <= i < |rows| && rows[i].agent == id;
        assert rows'[i].agent == id;
      }
    }
  }

  class CatalogStore {
    var rows: Catalog

    ghost predicate Valid()
      reads this
    {
      KeyedByAgent(rows)
    }

    constructor ()
      ensures Valid() && rows == map[]
    {
      rows := map[];
    }

    /** Records or updates an agent; its first-seen time stays what it was first. */
    method UpsertAgent(agent: string, hostname: string, snap: Snapshot, now: Text, works: bool) returns (ok: bool)
      requires Valid()
      modifies this
      ensures Valid() && ok == (agent == "" || works)
      ensures rows == if agent == "" || !works then old(rows)
                      else Upserted(old(rows), NewRecord(agent, hostname, snap, now))
      ensures forall id | id in old(rows) :: id in rows && rows[id].firstSeen == old(rows)[id].firstSeen
      ensures forall id | id != agent :: (id in rows <==> id in old(rows)) && (id in rows ==> rows[id] == old(rows)[id])
      ensures agent != "" && works ==> agent in rows && Noted(rows[agent], agent, hostname, snap, now)
      ensures agent != "" && works && agent !in old(rows) ==> rows[agent].firstSeen == rows[agent].lastSeen
    {
      if agent == "" {
        return true;
      }
      var host := if hostname == "" then agent else hostname;
      var lastSeen := if snap.collectedAt == "" then now else snap.collectedAt;
      if !works {
        return false;
      }
      var row := Record(agent, host, lastSeen, lastSeen,
                        snap.cpuLoad, snap.usedMemory, snap.totalMemory, snap.containers);
      if agent in rows {
        row := row.(firstSeen := rows[agent].firstSeen);
      }
      rows := rows[agent := row];
      return true;
    }

    /** Every row once, newest first, or an error. */
    method ListKnownAgents(works: bool) returns (out: Option<seq<Record>>)
      requires Valid()
      ensures out.Some? <==> works
      ensures works ==> RowsOf(out.value, rows) && NewestFirst(out.value)
    {
      if !works {
        return None;
      }
      var listed: seq<Record> := [];
      var left := rows.Keys;
      while left != {}
        invariant left <= rows.Keys && ListedSoFar(listed, rows, left)
      {
        SomeNewest(rows, left);
        var m :| IsNewest(rows, left, m);
        ListOneMore(listed, rows, left, m);
        listed := listed + [rows[m]];
        left := left - {m};
      }
      forall id | id in rows ensures exists i :: 0 <= i < |listed| && listed[i].agent == id {
        assert RowOf(listed, id);
      }
      return Some(listed);
    }
  }
}
