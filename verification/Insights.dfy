/** Diagnostic insights: their identity, the table they are kept in, and the deduplicated list. */
module Insights {
  import opened Sequences
  import opened Timestamps

  /** The details that identify an insight; a missing detail prints as "<nil>". */
  datatype Insight = Insight(
    id: string, agent: string, kind: string, severity: string, detectedAt: string, summaryKey: string,
    mount: Option<string>, containerId: Option<string>, containerName: Option<string>, target: Option<string>)

  function Printed(detail: Option<string>): string {
    match detail case None => "<nil>" case Some(s) => s
  }

  function ContainerPart(ins: Insight): string {
    if ins.containerId.None? || ins.containerId.value == "" then Printed(ins.containerName) else ins.containerId.value
  }

  /** InsightDedupeKey: a stable identity for one distinct issue. */
  function Key(ins: Insight): string {
    match ins.kind
    case "DISK_FILLING" => ins.kind + "|" + Printed(ins.mount)
    case "CONTAINER_FLAP" => ins.kind + "|" + ContainerPart(ins)
    case "CONNECTIVITY_FAIL" => ins.kind + "|" + Printed(ins.target)
    case _ => ins.kind
  }

  // ---------- The deduplicated list ----------

  /** For each key the newest row so far; of equally new rows the first. */
  function Seen(rows: seq<Insight>): map<string, Insight> {
    if rows == [] then map[]
    else
      var seen, last := Seen(rows[..|rows| - 1]), rows[|rows| - 1];
      if Key(last) !in seen || TextLess(seen[Key(last)].detectedAt, last.detectedAt) then seen[Key(last) := last]
      else seen
  }

  /** The keys in the order they were first seen. */
  function Order(rows: seq<Insight>): seq<string> {
    if rows == [] then []
    else
      var order, key := Order(rows[..|rows| - 1]), Key(rows[|rows| - 1]);
      if key in order then order else order + [key]
  }

  function AtMost(limit: int): (n: nat)
    ensures n > 0 && n == if limit > 0 then limit else 50
  {
    if limit <= 0 then 50 else limit
  }

  function Taken<T>(s: seq<T>, n: nat): (t: seq<T>)
    ensures t <= s && |t| == if |s| <= n then |s| else n
  {
    if |s| <= n then s else s[..n]
  }

  lemma {:induction false} SeenKeys(rows: seq<Insight>, key: string)
    ensures key in Seen(rows) <==> key in Order(rows)
    ensures key in Seen(rows) <==> exists r :: r in rows && Key(r) == key
  {
    if rows != [] {
      var n := |rows| - 1;
      SeenKeys(rows[..n], key);
      assert rows == rows[..n] + [rows[n]];
    }
  }

  /** The rows of the listed keys, at most `limit` of them. */
  function Deduped(rows: seq<Insight>, limit: int): (out: seq<Insight>)
  {
    var keys := Taken(Order(rows), AtMost(limit));
    seq(|keys|, i requires 0 <= i < |keys| => (SeenKeys(rows, keys[i]); Seen(rows)[keys[i]]))
  }

  /** Some row of the key, and none of the key newer. */
  ghost predicate NewestOf(rows: seq<Insight>, key: string, newest: Insight) {
    && newest in rows && Key(newest) == key
    && forall r | r in rows && Key(r) == key :: !TextLess(newest.detectedAt, r.detectedAt)
  }

  lemma {:induction false} SeenIsNewest(rows: seq<Insight>, key: string)
    requires key in Seen(rows)
    ensures NewestOf(rows, key, Seen(rows)[key])
  {
    var n := |rows| - 1;
    var front, last := rows[..n], rows[n];
    assert rows == front + [last];
    TextTransitive(last.detectedAt, last.detectedAt, last.detectedAt);
    if key in Seen(front) {
      SeenIsNewest(front, key);
      var before := Seen(front)[key];
      forall r | r in rows && Key(r) == key ensures !TextLess(Seen(rows)[key].detectedAt, r.detectedAt) {
        TextTransitive(before.detectedAt, last.detectedAt, r.detectedAt);
      }
    } else {
      SeenKeys(front, key);
    }
  }

  /** Of equally new rows of the key it is the first. */
  ghost predicate FirstAmongEqual(rows: seq<Insight>, newest: Insight) {
    exists p :: 0 <= p < |rows| && rows[p] == newest && Leads(rows, p)
  }

  /** All earlier rows of its key are older. */
  ghost predicate Leads(rows: seq<Insight>, p: nat)
    requires p < |rows|
  {
    forall q | 0 <= q < p && Key(rows[q]) == Key(rows[p]) :: TextLess(rows[q].detectedAt, rows[p].detectedAt)
  }

  lemma LeadStays(front: seq<Insight>, last: Insight, newest: Insight)
    requires FirstAmongEqual(front, newest)
    ensures FirstAmongEqual(front + [last], newest)
  {
    var p :| 0 <= p < |front| && front[p] == newest && Leads(front, p);
    assert (front + [last])[p] == newest && Leads(front + [last], p);
  }

  lemma NewLead(front: seq<Insight>, last: Insight)
    requires forall r | r in front && Key(r) == Key(last) :: TextLess(r.detectedAt, last.detectedAt)
    ensures FirstAmongEqual(front + [last], last)
  {
    var rows, n := front + [last], |front|;
    forall q | 0 <= q < n && Key(rows[q]) == Key(rows[n]) ensures TextLess(rows[q].detectedAt, rows[n].detectedAt) {
      assert rows[q] == front[q] && front[q] in front;
    }
    assert rows[n] == last && Leads(rows, n);
  }

  lemma {:induction false} SeenIsFirst(rows: seq<Insight>, key: string)
    requires key in Seen(rows)
    ensures FirstAmongEqual(rows, Seen(rows)[key])
  {
    var front, last := rows[..|rows| - 1], rows[|rows| - 1];
    assert rows == front + [last];
    if key in Seen(front) && Seen(rows)[key] == Seen(front)[key] {
      SeenIsFirst(front, key);
      LeadStays(front, last, Seen(front)[key]);
    } else {
      SeenKeys(front, key);
      forall r | r in front && Key(r) == key ensures TextLess(r.detectedAt, last.detectedAt) {
        SeenIsNewest(front, key);
        TextTransitive(Seen(front)[key].detectedAt, last.detectedAt, r.detectedAt);
      }
      NewLead(front, last);
    }
  }

  lemma {:induction false} OrderDistinct(rows: seq<Insight>)
    ensures NoDuplicates(Order(rows))
  {
    if rows != [] {
      OrderDistinct(rows[..|rows| - 1]);
    }
  }

  /** The first row of a key. */
  ghost predicate IsFirst(rows: seq<Insight>, key: string, p: nat) {
    p < |rows| && Key(rows[p]) == key && forall q | 0 <= q < p :: Key(rows[q]) != key
  }

  lemma FirstInFront(rows: seq<Insight>, key: string, p: nat)
    requires rows != [] && IsFirst(rows, key, p) && key in Order(rows[..|rows| - 1])
    ensures IsFirst(rows[..|rows| - 1], key, p)
  {
    var front := rows[..|rows| - 1];
    SeenKeys(front, key);
    var r :| r in front && Key(r) == key;
    var q :| 0 <= q < |front| && front[q] == r;
    assert Key(rows[q]) == key;
  }

  lemma {:induction false} FirstSeenOrder(rows: seq<Insight>, i: nat, j: nat, p: nat, q: nat)
    requires i < j < |Order(rows)| && IsFirst(rows, Order(rows)[i], p) && IsFirst(rows, Order(rows)[j], q)
    ensures p < q
  {
    var n := |rows| - 1;
    var front := rows[..n];
    FirstInFront(rows, Order(rows)[i], p);
    if j < |Order(front)| {
      FirstInFront(rows, Order(rows)[j], q);
      FirstSeenOrder(front, i, j, p, q);
    } else {
      SeenKeys(front, Order(rows)[j]);
      assert forall t | 0 <= t < n :: front[t] in front && rows[t] == front[t];
    }
  }

  ghost predicate HasKey(out: seq<Insight>, key: string) {
    exists i :: 0 <= i < |out| && Key(out[i]) == key
  }

  /** A key that is not listed is first seen after all that are. */
  ghost predicate SeenLater(rows: seq<Insight>, out: seq<Insight>, key: string) {
    forall i, p, q | 0 <= i < |out| && IsFirst(rows, Key(out[i]), p) && IsFirst(rows, key, q) :: p < q
  }

  /**
    For any rows at all the list has one insight for each of the first keys in first-seen
    order, each the newest of its key, and of equally new ones the first; no key is missing while
    there are fewer than `limit`, 50 without a positive one, and those missing then are first
    seen later.
   */
  lemma DedupedMeans(rows: seq<Insight>, limit: int)
    ensures var out, most := Deduped(rows, limit), if limit > 0 then limit else 50;
      && |out| <= most
      && (forall i | 0 <= i < |out| :: NewestOf(rows, Key(out[i]), out[i]) && FirstAmongEqual(rows, out[i]))
      && (forall i, j | 0 <= i < j < |out| :: Key(out[i]) != Key(out[j]))
      && (forall i, j, p, q |
            0 <= i < j < |out| && IsFirst(rows, Key(out[i]), p) && IsFirst(rows, Key(out[j]), q) :: p < q)
      && (forall r | r in rows :: HasKey(out, Key(r)) || (|out| == most && SeenLater(rows, out, Key(r))))
  {
    var out := Deduped(rows, limit);
    OrderDistinct(rows);
    forall i | 0 <= i < |out|
      ensures NewestOf(rows, Key(out[i]), out[i]) && FirstAmongEqual(rows, out[i]) && Key(out[i]) == Order(rows)[i]
    {
      SeenKeys(rows, Order(rows)[i]);
      SeenIsNewest(rows, Order(rows)[i]);
      SeenIsFirst(rows, Order(rows)[i]);
    }
    forall i, j, p: nat, q: nat | 0 <= i < j < |out| && IsFirst(rows, Key(out[i]), p) && IsFirst(rows, Key(out[j]), q)
      ensures p < q
    {
      FirstSeenOrder(rows, i, j, p, q);
    }
    forall r | r in rows ensures HasKey(out, Key(r)) || (|out| == AtMost(limit) && SeenLater(rows, out, Key(r))) {
      ListedOrLater(rows, limit, r);
    }
  }

  lemma ListedOrLater(rows: seq<Insight>, limit: int, r: Insight)
    requires r in rows
    requires var out := Deduped(rows, limit); forall i | 0 <= i < |out| :: Key(out[i]) == Order(rows)[i]
    ensures var out := Deduped(rows, limit);
      HasKey(out, Key(r)) || (|out| == AtMost(limit) && SeenLater(rows, out, Key(r)))
  {
    var out := Deduped(rows, limit);
    SeenKeys(rows, Key(r));
    var j :| 0 <= j < |Order(rows)| && Order(rows)[j] == Key(r);
    if j < |out| {
      assert Key(out[j]) == Key(r);
    } else {
      forall i, p: nat, q: nat | 0 <= i < |out| && IsFirst(rows, Key(out[i]), p) && IsFirst(rows, Key(r), q)
        ensures p < q
      {
        FirstSeenOrder(rows, i, j, p, q);
      }
    }
  }

  ghost predicate DistinctKeys(rows: seq<Insight>) {
    forall i, j | 0 <= i < j < |rows| :: Key(rows[i]) != Key(rows[j])
  }

  lemma OrderGrows(rows: seq<Insight>, last: Insight)
    ensures Order(rows + [last]) == if Key(last) in Order(rows) then Order(rows) else Order(rows) + [Key(last)]
  {
  }

  /** Deduplication removes nothing exactly when the keys are distinct. */
  lemma {:induction false} KeepsAllIffDistinct(rows: seq<Insight>)
    ensures |Order(rows)| <= |rows|
    ensures |Order(rows)| == |rows| <==> DistinctKeys(rows)
  {
    if rows != [] {
      var n := |rows| - 1;
      var front, last := rows[..n], rows[n];
      assert rows == front + [last];
      KeepsAllIffDistinct(front);
      OrderGrows(front, last);
      SeenKeys(front, Key(last));
      if Key(last) in Order(front) {
        var r :| r in front && Key(r) == Key(last);
        var i :| 0 <= i < n && rows[i] == r;
      } else {
        assert forall i | 0 <= i < n :: rows[i] == front[i] && front[i] in front;
      }
    }
  }

  lemma {:induction false} DistinctOrder(rows: seq<Insight>, i: nat)
    requires DistinctKeys(rows) && i < |rows|
    ensures |Order(rows)| == |rows| && Order(rows)[i] == Key(rows[i])
    ensures Key(rows[i]) in Seen(rows) && Seen(rows)[Key(rows[i])] == rows[i]
  {
    var n := |rows| - 1;
    var front, last := rows[..n], rows[n];
    assert rows == front + [last];
    KeepsAllIffDistinct(rows);
    KeepsAllIffDistinct(front);
    OrderGrows(front, last);
    SeenKeys(front, Key(last));
    if i < n {
      DistinctOrder(front, i);
    }
  }

  // ---------- When the list is the newest rows ----------

  /** Rows whose times never increase. */
  ghost predicate NeverNewer(rows: seq<Insight>) {
    forall i, j | 0 <= i < j < |rows| :: !TextLess(rows[i].detectedAt, rows[j].detectedAt)
  }

  /** The keys of the first rows are the first keys. */
  lemma {:induction false} OrderOfPrefix(rows: seq<Insight>, n: nat)
    requires n <= |rows|
    ensures Order(rows[..n]) <= Order(rows)
  {
    if n < |rows| {
      var front := rows[..|rows| - 1];
      OrderOfPrefix(front, n);
      assert front[..n] == rows[..n];
      assert Order(front) <= Order(rows);
    } else {
      assert rows[..n] == rows;
    }
  }

  /** In rows whose times never increase, the row first seen for a key stays. */
  lemma {:induction false} FirstRowStays(rows: seq<Insight>, n: nat, key: string)
    requires NeverNewer(rows) && n <= |rows| && key in Seen(rows[..n])
    ensures key in Seen(rows) && Seen(rows)[key] == Seen(rows[..n])[key]
  {
    if n < |rows| {
      var front, last := rows[..|rows| - 1], rows[|rows| - 1];
      assert front[..n] == rows[..n];
      FirstRowStays(front, n, key);
      SeenIsNewest(front, key);
      var i :| 0 <= i < |front| && front[i] == Seen(front)[key];
      assert rows[i] == front[i];
    } else {
      assert rows[..n] == rows;
    }
  }

  /** If the first `n` rows have distinct keys, the list begins with them. */
  lemma PrefixListed(rows: seq<Insight>, n: nat, i: nat)
    requires NeverNewer(rows) && n <= |rows| && DistinctKeys(rows[..n]) && i < n
    ensures i < |Order(rows)| && Order(rows)[i] == Key(rows[i])
    ensures Key(rows[i]) in Seen(rows) && Seen(rows)[Key(rows[i])] == rows[i]
  {
    DistinctOrder(rows[..n], i);
    OrderOfPrefix(rows, n);
    FirstRowStays(rows, n, Key(rows[i]));
  }

  /** When more rows are fetched than listed, the list is the newest rows exactly if these have distinct keys. */
  lemma ListedIffDistinct(all: seq<Insight>, fetched: nat, limit: int)
    requires NeverNewer(all) && AtMost(limit) <= fetched
    ensures Deduped(Taken(all, fetched), limit) == Taken(all, AtMost(limit))
       <==> DistinctKeys(Taken(all, AtMost(limit)))
  {
    var rows, top := Taken(all, fetched), Taken(all, AtMost(limit));
    var n := |top|;
    assert rows[..n] == top;
    DedupedMeans(rows, limit);
    if DistinctKeys(top) {
      forall i | 0 <= i < n
        ensures i < |Order(rows)| && Order(rows)[i] == Key(top[i])
        ensures Key(top[i]) in Seen(rows) && Seen(rows)[Key(top[i])] == top[i]
      {
        PrefixListed(rows, n, i);
      }
      KeepsAllIffDistinct(rows);
      KeepsAllIffDistinct(top);
      OrderOfPrefix(rows, n);
      assert Deduped(rows, limit) == top;
    }
  }

  lemma SeenGrows(rows: seq<Insight>, last: Insight)
    ensures Seen(rows + [last]) ==
      if Key(last) !in Seen(rows) || TextLess(Seen(rows)[Key(last)].detectedAt, last.detectedAt)
      then Seen(rows)[Key(last) := last] else Seen(rows)
  {
    assert (rows + [last])[..|rows|] == rows;
  }

  lemma CollectMore(rows: seq<Insight>, last: Insight)
    ensures Key(last) in Seen(rows) <==> Key(last) in Order(rows)
    ensures Seen(rows + [last]) ==
      if Key(last) !in Seen(rows) || TextLess(Seen(rows)[Key(last)].detectedAt, last.detectedAt)
      then Seen(rows)[Key(last) := last] else Seen(rows)
    ensures Order(rows + [last]) == if Key(last) in Seen(rows) then Order(rows) else Order(rows) + [Key(last)]
  {
    SeenKeys(rows, Key(last));
    SeenGrows(rows, last);
    OrderGrows(rows, last);
  }

  /** The newest row of each key, and the keys in first-seen order. */
  method Collect(rows: seq<Insight>) returns (seen: map<string, Insight>, order: seq<string>)
    ensures seen == Seen(rows) && order == Order(rows)
  {
    seen, order := map[], [];
    ghost var done: seq<Insight> := [];
    var i := 0;
    while i < |rows|
      invariant 0 <= i <= |rows| && done == rows[..i]
      invariant seen == Seen(done) && order == Order(done)
    {
      var ins := rows[i];
      var key := Key(ins);
      CollectMore(done, ins);
      if key !in seen {
        order := order + [key];
      }
      if key !in seen || TextLess(seen[key].detectedAt, ins.detectedAt) {
        seen := seen[key := ins];
      }
      done := done + [ins];
      i := i + 1;
    }
    assert done == rows;
  }

  /** The rows of the keys, in their order, until there are enough. */
  method Emit(seen: map<string, Insight>, order: seq<string>, most: nat) returns (out: seq<Insight>)
    requires most > 0 && forall i | 0 <= i < |order| :: order[i] in seen
    ensures |out| == if |order| <= most then |order| else most
    ensures forall i | 0 <= i < |out| :: out[i] == seen[order[i]]
  {
    out := [];
    var i := 0;
    while i < |order|
      invariant 0 <= i <= |order| && |out| == i && (i > 0 ==> i < most)
      invariant forall j | 0 <= j < i :: out[j] == seen[order[j]]
    {
      out := out + [seen[order[i]]];
      if |out| >= most {
        return;
      }
      i := i + 1;
    }
  }

  lemma OrderSeen(rows: seq<Insight>)
    ensures forall i | 0 <= i < |Order(rows)| :: Order(rows)[i] in Seen(rows)
  {
    forall i | 0 <= i < |Order(rows)| ensures Order(rows)[i] in Seen(rows) {
      SeenKeys(rows, Order(rows)[i]);
    }
  }

  /** ListInsights: fetches three times as many rows as it lists, and deduplicates them. */
  method ListInsights(all: seq<Insight>, limit: int) returns (out: seq<Insight>)
    ensures var most := if limit > 0 then limit else 50;
      out == Deduped(if |all| <= 3 * most then all else all[..3 * most], limit)
  {
    var most := if limit <= 0 then 50 else limit;
    var rows := if |all| <= most * 3 then all else all[..most * 3];
    var seen, order := Collect(rows);
    OrderSeen(rows);
    out := Emit(seen, order, most);
  }
}
