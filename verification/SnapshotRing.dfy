/** The window of recent snapshots that the hub keeps per agent. */
module SnapshotRing {
  import opened Sequences

  /** What the hub reads from a snapshot. */
  datatype Snapshot = Snapshot(collectedAt: string, cpuLoad: real, usedMemory: int, totalMemory: int, containers: nat)

  /** A window of a window is the smaller window. */
  lemma LastOfLast<T>(s: seq<T>, n: nat, k: nat)
    ensures LastN(LastN(s, n), k) == LastN(s, if k < n then k else n)
  {
  }

  /** Appending to a window and cutting it again is the window of everything. */
  lemma PushKeepsLast<T>(s: seq<T>, x: T, n: nat)
    requires n > 0
    ensures LastN(LastN(s, n) + [x], n) == LastN(s + [x], n)
  {
  }

  /** The end of a list, as long as `n` and the list allow. */
  ghost predicate IsEnd<T>(end: seq<T>, all: seq<T>, n: nat) {
    |end| == (if |all| <= n then |all| else n) && end == all[|all| - |end|..]
  }

  /** SnapshotStore: a slice that is appended to and cut to its capacity. */
  class SnapshotStore {
    var history: seq<Snapshot>
    const capacity: nat

    ghost predicate Valid()
      reads this
    {
      capacity >= 1 && |history| <= capacity
    }

    constructor (size: int)
      ensures Valid() && history == [] && capacity == if size < 1 then 60 else size
    {
      history := [];
      capacity := if size < 1 then 60 else size;
    }

    /** After any number of pushes the store has the newest of all it was given. */
    method Push(snap: Snapshot, ghost all: seq<Snapshot>)
      requires Valid() && history == LastN(all, capacity)
      modifies this
      ensures Valid() && history == LastN(all + [snap], capacity)
    {
      PushKeepsLast(all, snap, capacity);
      history := history + [snap];
      if |history| > capacity {
        history := history[|history| - capacity..];
      }
    }

    method Latest() returns (latest: Option<Snapshot>)
      ensures latest == if history == [] then None else Some(history[|history| - 1])
    {
      if |history| == 0 {
        return None;
      }
      return Some(history[|history| - 1]);
    }

    /** Of everything pushed the newest `limit`, but no more than the capacity, oldest first; none for zero or less. */
    method History(limit: int, ghost all: seq<Snapshot>) returns (out: seq<Snapshot>)
      requires history == LastN(all, capacity)
      ensures out == if limit <= 0 then [] else LastN(all, if limit < capacity then limit else capacity)
      ensures IsEnd(out, all, if limit <= 0 then 0 else if limit < capacity then limit else capacity)
    {
      if limit <= 0 || |history| == 0 {
        return [];
      }
      LastOfLast(all, capacity, limit);
      var start := |history| - limit;
      if start < 0 {
        start := 0;
      }
      out := history[start..];
    }
  }
}
