/** Tier 0 of the history: one row per agent and collection time, written by an upsert. */
module RawSamples {
  import opened Timestamps

  datatype Sample = Sample(agent: string, at: Stamp, cpu: real, usedMemory: int, totalMemory: int)

  predicate SameKey(a: Sample, b: Sample) {
    a.agent == b.agent && a.at == b.at
  }

  function Replacing(table: seq<Sample>, row: Sample): seq<Sample> {
    if table == [] then []
    else (if SameKey(table[0], row) then [] else [table[0]]) + Replacing(table[1..], row)
  }

  /** INSERT OR REPLACE: the row with the same key goes, the new row comes. */
  function Upsert(table: seq<Sample>, row: Sample): seq<Sample> {
    Replacing(table, row) + [row]
  }

  /** The table after writing the samples one after the other into an empty table. */
  function Written(samples: seq<Sample>): seq<Sample> {
    if samples == [] then [] else Upsert(Written(samples[..|samples| - 1]), samples[|samples| - 1])
  }

  function Contents(table: seq<Sample>): set<Sample> {
    set r | r in table
  }

  /** No two different samples for one agent and time. */
  ghost predicate Consistent(samples: seq<Sample>) {
    forall a, b | a in samples && b in samples && SameKey(a, b) :: a == b
  }

  lemma {:induction false} ReplacingMembers(table: seq<Sample>, row: Sample, r: Sample)
    ensures r in Replacing(table, row) <==> r in table && !SameKey(r, row)
  {
    if table != [] {
      ReplacingMembers(table[1..], row, r);
      assert table == [table[0]] + table[1..];
    }
  }

  lemma UpsertMembers(table: seq<Sample>, row: Sample, r: Sample)
    ensures r in Upsert(table, row) <==> r == row || (r in table && !SameKey(r, row))
  {
    ReplacingMembers(table, row, r);
  }

  /** One row for each agent and time. */
  ghost predicate KeysUnique(table: seq<Sample>) {
    forall i, j | 0 <= i < j < |table| :: !SameKey(table[i], table[j])
  }

  lemma {:induction false} ReplacingUnique(table: seq<Sample>, row: Sample)
    requires KeysUnique(table)
    ensures KeysUnique(Replacing(table, row))
  {
    if table != [] {
      var rest := Replacing(table[1..], row);
      ReplacingUnique(table[1..], row);
      forall r | r in rest ensures !SameKey(table[0], r) {
        ReplacingMembers(table[1..], row, r);
      }
    }
  }

  /** An upsert keeps one row for each agent and time. */
  lemma UpsertUnique(table: seq<Sample>, row: Sample)
    requires KeysUnique(table)
    ensures KeysUnique(Upsert(table, row))
  {
    ReplacingUnique(table, row);
    forall r | r in Replacing(table, row) ensures !SameKey(r, row) {
      ReplacingMembers(table, row, r);
    }
  }

  lemma {:induction false} WrittenKeysUnique(samples: seq<Sample>)
    ensures KeysUnique(Written(samples))
  {
    if samples != [] {
      WrittenKeysUnique(samples[..|samples| - 1]);
      UpsertUnique(Written(samples[..|samples| - 1]), samples[|samples| - 1]);
    }
  }

  lemma {:induction false} ConsistentWrites(samples: seq<Sample>, r: Sample)
    requires Consistent(samples)
    ensures r in Written(samples) <==> r in samples
  {
    if samples != [] {
      var front, last := samples[..|samples| - 1], samples[|samples| - 1];
      assert samples == front + [last];
      ConsistentWrites(front, r);
      UpsertMembers(Written(front), last, r);
    }
  }

  lemma {:induction false} LastWriteWins(samples: seq<Sample>, row: Sample)
    ensures row in Written(samples + [row])
    ensures forall r | r in Written(samples + [row]) && SameKey(r, row) :: r == row
  {
    assert (samples + [row])[..|samples|] == samples;
    UpsertMembers(Written(samples), row, row);
    forall r | r in Written(samples + [row]) && SameKey(r, row) ensures r == row {
      UpsertMembers(Written(samples), row, r);
    }
  }

  /**
    Order and repeats of the writes do not matter exactly when no two of the samples
    contradict each other.
   */
  lemma OrderIrrelevantIffConsistent(samples: seq<Sample>)
    ensures (forall other: seq<Sample> | Contents(other) == Contents(samples) ::
              Contents(Written(other)) == Contents(Written(samples)))
       <==> Consistent(samples)
  {
    if Consistent(samples) {
      forall other: seq<Sample> | Contents(other) == Contents(samples)
        ensures Contents(Written(other)) == Contents(Written(samples))
      {
        SameWrites(other, samples);
      }
    } else {
      var a, b :| a in samples && b in samples && SameKey(a, b) && a != b;
      LastWriteWins(samples, a);
      LastWriteWins(samples, b);
      assert Contents(samples + [a]) == Contents(samples) && Contents(samples + [b]) == Contents(samples);
      assert a in Contents(Written(samples + [a])) && a !in Contents(Written(samples + [b]));
    }
  }

  lemma SameWrites(xs: seq<Sample>, ys: seq<Sample>)
    requires Contents(xs) == Contents(ys) && Consistent(ys)
    ensures Contents(Written(xs)) == Contents(Written(ys)) == Contents(ys)
  {
    assert forall r :: r in xs <==> r in Contents(xs);
    assert forall r :: r in ys <==> r in Contents(ys);
    assert Consistent(xs);
    forall r ensures r in Written(xs) <==> r in Contents(ys) { ConsistentWrites(xs, r); }
    forall r ensures r in Written(ys) <==> r in Contents(ys) { ConsistentWrites(ys, r); }
  }
}
