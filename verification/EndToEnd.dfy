/** From production on the agent to the hub's raw table, over every run of the delivery protocol. */
module EndToEnd {
  import opened Sequences
  import opened PushMachine
  import opened PushInvariant
  import opened RawSamples

  /** The snapshots the hub has received at least once, each once, in production order. */
  function ReceivedOnce(received: seq<Receipt>, n: nat): seq<nat> {
    if n == 0 then []
    else
      ReceivedOnce(received, n - 1)
      + (if exists i | 0 <= i < |received| :: received[i].item == n - 1 then [n - 1] else [])
  }

  lemma {:induction false} ReceivedOnceMembers(received: seq<Receipt>, n: nat)
    ensures Increasing(ReceivedOnce(received, n))
    ensures forall x: nat :: x in ReceivedOnce(received, n) <==>
      x < n && exists i | 0 <= i < |received| :: received[i].item == x
  {
    if n > 0 {
      ReceivedOnceMembers(received, n - 1);
      AppendLarger(ReceivedOnce(received, n - 1), n - 1);
    }
  }

  function Samples(items: seq<nat>, content: nat -> Sample): seq<Sample> {
    seq(|items|, i requires 0 <= i < |items| => content(items[i]))
  }

  lemma {:induction false} SamplesMembers(items: seq<nat>, content: nat -> Sample, r: Sample)
    ensures r in Samples(items, content) <==> exists x :: x in items && content(x) == r
  {
    if r in Samples(items, content) {
      var i :| 0 <= i < |items| && Samples(items, content)[i] == r;
      assert items[i] in items && content(items[i]) == r;
    }
    if exists x :: x in items && content(x) == r {
      var x :| x in items && content(x) == r;
      var i :| 0 <= i < |items| && items[i] == x;
      assert Samples(items, content)[i] == r;
    }
  }

  /**
    At-least-once, reordered delivery gives a well-defined table: whatever order and
    however often the hub's writers apply what it received in a run, the raw table holds
    what writing each received snapshot once, in production order, would leave.
   */
  lemma EndToEndIdempotence(c: Config, steps: seq<Step>, content: nat -> Sample, writes: seq<nat>)
    requires forall i, j: nat | SameKey(content(i), content(j)) :: content(i) == content(j)
    requires forall x: nat :: x in writes <==> HubHas(Exec(c, steps), x)
    ensures var s := Exec(c, steps);
      && Contents(Written(Samples(writes, content)))
         == Contents(Written(Samples(ReceivedOnce(s.received, s.produced), content)))
      && KeysUnique(Written(Samples(writes, content)))
      && Increasing(ReceivedOnce(s.received, s.produced))
      && forall i | i in s.fate && s.fate[i] == Delivered :: content(i) in Written(Samples(writes, content))
  {
    var s := Exec(c, steps);
    var once := ReceivedOnce(s.received, s.produced);
    RunInv(c, steps);
    ReceivedOnceMembers(s.received, s.produced);
    forall x: nat ensures x in writes <==> x in once {
      if HubHas(s, x) {
        ReceivedWereProduced(s, x);
      }
    }
    var xs, ys := Samples(writes, content), Samples(once, content);
    forall r ensures r in xs <==> r in ys {
      SamplesMembers(writes, content, r);
      SamplesMembers(once, content, r);
    }
    assert Contents(xs) == Contents(ys);
    assert Consistent(ys) by {
      forall a, b | a in ys && b in ys && SameKey(a, b) ensures a == b {
        SamplesMembers(once, content, a);
        SamplesMembers(once, content, b);
      }
    }
    SameWrites(xs, ys);
    WrittenKeysUnique(xs);
    forall i | i in s.fate && s.fate[i] == Delivered ensures content(i) in Written(xs) {
      assert i in writes;
      SamplesMembers(writes, content, content(i));
      assert content(i) in Contents(Written(xs));
    }
  }

  lemma ReceivedWereProduced(s: State, x: nat)
    requires TraceInOrder(s) && HubHas(s, x)
    ensures x < s.produced
  {
    var i :| 0 <= i < |s.received| && s.received[i].item == x;
    ReceiptInSends(s.received, i);
    assert x in Sends(s.received, s.received[i].path);
  }

  lemma {:induction false} ReceiptInSends(received: seq<Receipt>, i: nat)
    requires i < |received|
    ensures received[i].item in Sends(received, received[i].path)
  {
    if i < |received| - 1 {
      ReceiptInSends(received[..|received| - 1], i);
    }
  }
}
