/**
  The agent's disk spool: a bounded FIFO table whose ids come from AUTOINCREMENT,
  so an id is never given out twice.  An item is named by its production number.
 */
module SpoolQueue {
  import opened Sequences

  datatype Row = Row(id: nat, item: nat)

  datatype Table = Table(rows: seq<Row>, nextId: nat)

  /** What the database does during one Put: the INSERT fails, the trim after it fails, or both work. */
  datatype PutOutcome = InsertFails | TrimFails | Stored

  function Insert(t: Table, item: nat): Table {
    Table(t.rows + [Row(t.nextId, item)], t.nextId + 1)
  }

  /** How many of the oldest rows a trim deletes. */
  function Overflow(t: Table, maxItems: nat): nat {
    if |t.rows| <= maxItems then 0 else |t.rows| - maxItems
  }

  function Trimmed(t: Table, maxItems: nat): Table {
    t.(rows := t.rows[Overflow(t, maxItems)..])
  }

  function AfterPut(t: Table, item: nat, maxItems: nat, outcome: PutOutcome): Table {
    match outcome
    case InsertFails => t
    case TrimFails => Insert(t, item)
    case Stored => Trimmed(Insert(t, item), maxItems)
  }

  function Without(rows: seq<Row>, id: nat): seq<Row> {
    if rows == [] then []
    else (if rows[0].id == id then [] else [rows[0]]) + Without(rows[1..], id)
  }

  function Items(rows: seq<Row>): (items: seq<nat>)
  {
    seq(|rows|, i requires 0 <= i < |rows| => rows[i].item)
  }

  /** Ids grow along the table and stay below the next one to be handed out. */
  ghost predicate Ordered(t: Table) {
    && t.nextId >= 1
    && (forall i | 0 <= i < |t.rows| :: 1 <= t.rows[i].id < t.nextId)
    && (forall i, j | 0 <= i < j < |t.rows| :: t.rows[i].id < t.rows[j].id)
  }

  lemma {:induction false} WithoutAbsent(rows: seq<Row>, id: nat)
    requires forall r | r in rows :: r.id != id
    ensures Without(rows, id) == rows
  {
    if rows != [] {
      assert rows[0] in rows;
      WithoutAbsent(rows[1..], id);
    }
  }

  /** Deleting an id that is at most the head's removes the head or nothing. */
  lemma WithoutHead(t: Table, id: nat)
    requires Ordered(t)
    requires forall r | r in t.rows :: id <= r.id
    ensures Without(t.rows, id) == if t.rows != [] && t.rows[0].id == id then t.rows[1..] else t.rows
  {
    if t.rows != [] && t.rows[0].id == id {
      assert forall i | 0 <= i < |t.rows[1..]| :: t.rows[1..][i] == t.rows[i + 1];
      WithoutAbsent(t.rows[1..], id);
    } else {
      forall r | r in t.rows ensures r.id != id {
        var i :| 0 <= i < |t.rows| && t.rows[i] == r;
        assert t.rows[0] in t.rows;
        assert i == 0 || t.rows[0].id < t.rows[i].id;
      }
      WithoutAbsent(t.rows, id);
    }
  }

  lemma {:induction false} WithoutMembers(rows: seq<Row>, id: nat, r: Row)
    ensures r in Without(rows, id) <==> r in rows && r.id != id
  {
    if rows != [] {
      WithoutMembers(rows[1..], id, r);
      assert rows == [rows[0]] + rows[1..];
    }
  }

  /** The rows without those of an id, if there is one. */
  ghost predicate Removed(before: seq<Row>, after: seq<Row>, id: Option<nat>) {
    forall r :: r in after <==> r in before && Some(r.id) != id
  }

  lemma WithoutRemoves(rows: seq<Row>, id: nat)
    ensures Removed(rows, Without(rows, id), Some(id))
  {
    forall r ensures r in Without(rows, id) <==> r in rows && r.id != id {
      WithoutMembers(rows, id, r);
    }
  }

  lemma {:induction false} WithoutShrinks(rows: seq<Row>, id: nat)
    ensures |Without(rows, id)| <= |rows|
  {
    if rows != [] {
      WithoutShrinks(rows[1..], id);
    }
  }

  lemma InsertKeepsOrder(t: Table, item: nat)
    requires Ordered(t)
    ensures Ordered(Insert(t, item))
  {
  }

  lemma TrimKeepsOrder(t: Table, maxItems: nat)
    requires Ordered(t)
    ensures Ordered(Trimmed(t, maxItems))
  {
  }

  lemma TrimKeepsNewest(t: Table, maxItems: nat)
    requires Ordered(t)
    ensures var t' := Trimmed(t, maxItems);
      && (forall r | r in t'.rows :: r in t.rows)
      && (forall r, r' | r in t.rows && r !in t'.rows && r' in t'.rows :: r.id < r'.id)
      && |t'.rows| == if |t.rows| <= maxItems then |t.rows| else maxItems
  {
  }

  /**
    Bounded: a put that works leaves the end of what was there with the new row, no more than
    maxItems rows, and all of them if they fit.
   */
  lemma PutIsBounded(t: Table, item: nat, maxItems: nat)
    ensures var t', all := AfterPut(t, item, maxItems, Stored), t.rows + [Row(t.nextId, item)];
      && |t'.rows| == (if |t.rows| + 1 <= maxItems then |t.rows| + 1 else maxItems)
      && t'.rows == all[|all| - |t'.rows|..] && t'.nextId == t.nextId + 1
  {
  }

  lemma StoredKeepsNewest(t: Table, item: nat, maxItems: nat)
    requires Ordered(t)
    ensures var t' := Trimmed(Insert(t, item), maxItems);
      && (forall r | r in t'.rows :: r in t.rows || r == Row(t.nextId, item))
      && (forall r | r in t.rows && r !in t'.rows ::
            |t'.rows| == maxItems && forall r' | r' in t'.rows :: r.id < r'.id)
  {
    var inserted := Insert(t, item);
    var t' := Trimmed(inserted, maxItems);
    InsertKeepsOrder(t, item);
    TrimKeepsNewest(inserted, maxItems);
    InsertedRows(t, item);
    forall r | r in t.rows && r !in t'.rows
      ensures |t'.rows| == maxItems && forall r' | r' in t'.rows :: r.id < r'.id
    {
      assert r in inserted.rows;
    }
  }

  lemma InsertedRows(t: Table, item: nat)
    ensures forall r :: r in Insert(t, item).rows <==> r in t.rows || r == Row(t.nextId, item)
  {
  }

  /** A put keeps the ids ordered, and every row it removes leaves maxItems newer rows behind. */
  lemma PutKeepsNewest(t: Table, item: nat, maxItems: nat, outcome: PutOutcome)
    requires Ordered(t)
    ensures var t' := AfterPut(t, item, maxItems, outcome);
      && Ordered(t')
      && (forall r | r in t'.rows :: r in t.rows || r == Row(t.nextId, item))
      && (forall r | r in t.rows && r !in t'.rows ::
            |t'.rows| == maxItems && forall r' | r' in t'.rows :: r.id < r'.id)
      && (maxItems >= 1 ==> (Row(t.nextId, item) in t'.rows <==> !outcome.InsertFails?))
  {
    var inserted := Insert(t, item);
    InsertKeepsOrder(t, item);
    NewRowStays(t, item, maxItems);
    match outcome
    case InsertFails =>
    case TrimFails => InsertedRows(t, item);
    case Stored =>
      TrimKeepsOrder(inserted, maxItems);
      StoredKeepsNewest(t, item, maxItems);
  }

  /** A new row was not there before, and is the last to be trimmed. */
  lemma NewRowStays(t: Table, item: nat, maxItems: nat)
    requires Ordered(t)
    ensures Row(t.nextId, item) !in t.rows
    ensures maxItems >= 1 ==> Row(t.nextId, item) in Trimmed(Insert(t, item), maxItems).rows
  {
    var inserted, kept := Insert(t, item), Trimmed(Insert(t, item), maxItems).rows;
    assert maxItems >= 1 ==> kept != [] && kept[|kept| - 1] == inserted.rows[|t.rows|];
  }

  /** The spool as the program holds it: rows replaced in place under a mutex. */
  class Spool {
    var rows: seq<Row>
    var nextId: nat
    const maxItems: nat

    function View(): Table
      reads this
    {
      Table(rows, nextId)
    }

    /** OpenSpool on a fresh file; a limit of zero or less means 2880. */
    constructor Open(limit: int)
      ensures View() == Table([], 1)
      ensures maxItems == if limit <= 0 then 2880 else limit
    {
      rows, nextId := [], 1;
      maxItems := if limit <= 0 then 2880 else limit;
    }

    method TrimLocked(fails: bool) returns (ok: bool)
      modifies this
      ensures ok == !fails
      ensures View() == if fails then old(View()) else Trimmed(old(View()), maxItems)
      ensures ok ==> |rows| <= maxItems
    {
      if fails {
        return false;
      }
      var overflow := |rows| - maxItems;
      if overflow <= 0 {
        return true;
      }
      rows := rows[overflow..];
      return true;
    }

    /**
      Stores a row and trims: after a put that works there are at most maxItems rows, the end
      of the old ones with the new one.  An error on a row that is stored all the same: exactly
      when the trim alone fails.
     */
    method Put(item: nat, outcome: PutOutcome) returns (ok: bool)
      modifies this
      ensures View() == AfterPut(old(View()), item, maxItems, outcome)
      ensures ok == outcome.Stored?
      ensures nextId == old(nextId) + (if outcome.InsertFails? then 0 else 1)
      ensures var all := old(rows) + [Row(old(nextId), item)];
        match outcome
        case InsertFails => rows == old(rows)
        case TrimFails => rows == all
        case Stored => |rows| == (if |all| <= maxItems then |all| else maxItems) && rows == all[|all| - |rows|..]
      ensures Ordered(old(View())) && maxItems >= 1 ==>
        (!ok && Row(old(nextId), item) in rows <==> outcome.TrimFails?)
    {
      PutIsBounded(View(), item, maxItems);
      if Ordered(View()) {
        PutKeepsNewest(View(), item, maxItems, outcome);
      }
      if outcome.InsertFails? {
        return false;
      }
      rows := rows + [Row(nextId, item)];
      nextId := nextId + 1;
      ok := TrimLocked(outcome.TrimFails?);
    }

    method Peek(fails: bool) returns (head: Option<Row>, ok: bool)
      ensures ok == !fails
      ensures head == if fails || rows == [] then None else Some(rows[0])
    {
      if fails {
        return None, false;
      }
      if |rows| == 0 {
        return None, true;
      }
      return Some(rows[0]), true;
    }

    method Delete(id: nat, fails: bool) returns (ok: bool)
      modifies this
      ensures ok == (id == 0 || !fails)
      ensures nextId == old(nextId)
      ensures rows == if id == 0 || fails then old(rows) else Without(old(rows), id)
      ensures Removed(old(rows), rows, if id == 0 || fails then None else Some(id))
    {
      if id == 0 {
        return true;
      }
      if fails {
        return false;
      }
      WithoutRemoves(rows, id);
      rows := Without(rows, id);
      return true;
    }
  }
}
