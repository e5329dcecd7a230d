/** The invariant every step of the delivery protocol keeps. */
module PushInvariant {
  import opened Sequences
  import opened SpoolQueue
  import opened PushMachine

  /** Spool, then the producer's hand, then the queue, then the incoming snapshot: strictly in production order. */
  ghost predicate InOrder(s: State) {
    && Increasing(Pipeline(s))
    && (forall x | x in Pipeline(s) :: x < s.produced)
  }

  /** What is queued behind the worker. */
  function Behind(s: State): seq<nat> {
    s.queue + Incoming(s)
  }

  /** The worker's snapshot is in no other place, and older than everything still queued behind it. */
  ghost predicate HeldApart(s: State) {
    forall h | h in Held(s) ::
      && h < s.produced
      && h !in Pipeline(s)
      && (forall x | x in Behind(s) :: h < x)
  }

  /** Every produced snapshot is somewhere, or has one fate; never both. */
  ghost predicate Accounted(s: State) {
    && (forall i: nat :: i < s.produced <==> (i in s.fate || i in Pipeline(s) || i in Held(s)))
    && (forall i | i in s.fate :: i !in Pipeline(s) && i !in Held(s))
    && (forall i | i in s.fate && s.fate[i] == Delivered :: HubHas(s, i))
  }

  /** The row under delivery is the spool's head or already gone; a row to be deleted was received by the hub. */
  ghost predicate SpoolSafe(s: State) {
    && Ordered(s.spool)
    && (WorkerRow(s).Some? ==>
        var w := WorkerRow(s).value;
        && 1 <= w.id < s.spool.nextId
        && w.item < s.produced
        && (forall r | r in s.spool.rows :: w.id <= r.id && (r.id == w.id ==> r == w))
        && (forall x | x in Pipeline(s) :: w.item <= x))
    && (s.worker.Deleting? ==> HubHas(s, s.worker.row.item))
  }

  /** What the hub has received is never ahead of what will be sent on the same path. */
  ghost predicate TraceInOrder(s: State) {
    && NonDecreasing(Sends(s.received, FromSpool))
    && NonDecreasing(Sends(s.received, FromQueue))
    && (forall x | x in Sends(s.received, FromSpool) ::
          && x < s.produced
          && (forall y | y in Pipeline(s) :: x <= y)
          && (WorkerRow(s).Some? ==> x <= WorkerRow(s).value.item))
    && (forall x | x in Sends(s.received, FromQueue) ::
          && x < s.produced
          && (forall y | y in Behind(s) :: x < y)
          && (forall h | h in Held(s) :: x <= h))
  }

  /** The queue stays within its capacity, and a failed first send means that there is room now. */
  ghost predicate Bounded(c: Config, s: State) {
    && |s.queue| <= c.capacity
    && match s.producer
       case Idle => true
       case Sending(_, attempts, spills) => spills <= attempts <= 1 && (attempts == 1 ==> |s.queue| < c.capacity)
       case Evicting(_, attempts, spills) => attempts == 1 && spills == 0
       case Spilling(_, _, attempts, spills) => attempts == 1 && spills == 0 && |s.queue| < c.capacity
  }

  ghost predicate Inv(c: Config, s: State) {
    InOrder(s) && HeldApart(s) && Accounted(s) && SpoolSafe(s) && TraceInOrder(s) && Bounded(c, s)
  }

  lemma ItemsOfConcat(a: seq<Row>, b: seq<Row>)
    ensures Items(a + b) == Items(a) + Items(b)
  {
  }

  lemma SendsGrow(received: seq<Receipt>, r: Receipt, path: Path)
    ensures Sends(received + [r], path) == Sends(received, path) + (if r.path == path then [r.item] else [])
  {
  }

  lemma HubKeeps(s: State, s': State, item: nat)
    requires HubHas(s, item) && s.received <= s'.received
    ensures HubHas(s', item)
  {
  }

  lemma InitInv(c: Config)
    ensures Inv(c, INIT)
  {
    assert Pipeline(INIT) == [];
    assert Behind(INIT) == [];
    assert Sends(INIT.received, FromSpool) == [] && Sends(INIT.received, FromQueue) == [];
  }

  /** Nothing enters the pipeline except newly produced snapshots. */
  ghost predicate Narrows(s: State, s': State) {
    && s.produced <= s'.produced
    && InOrder(s')
    && (forall x | x in Pipeline(s') :: x in Pipeline(s) || s.produced <= x)
    && (forall x | x in Behind(s') :: x in Behind(s) || s.produced <= x)
  }

  /** A step that narrows the pipeline and leaves the hub and the worker's snapshot alone keeps the order facts. */
  lemma NarrowingKeeps(s: State, s': State)
    requires HeldApart(s) && TraceInOrder(s) && Narrows(s, s')
    requires s'.received == s.received && Held(s') == Held(s)
    requires WorkerRow(s').Some? ==> WorkerRow(s') == WorkerRow(s)
    ensures HeldApart(s') && TraceInOrder(s')
  {
  }

  /** Likewise for the row under delivery, when the table itself is untouched. */
  lemma NarrowingKeepsRow(s: State, s': State)
    requires SpoolSafe(s) && Narrows(s, s')
    requires s'.received == s.received && s'.worker == s.worker && s'.spool == s.spool
    ensures SpoolSafe(s')
  {
  }

  lemma ProduceNarrows(s: State, s': State)
    requires InOrder(s) && s.producer.Idle?
    requires s' == s.(producer := Sending(s.produced, 0, 0), produced := s.produced + 1)
    ensures Narrows(s, s') && Pipeline(s') == Pipeline(s) + [s.produced]
  {
    assert Pipeline(s') == Pipeline(s) + [s.produced];
    assert Behind(s') == Behind(s) + [s.produced];
    AppendLarger(Pipeline(s), s.produced);
  }

  lemma ProduceKeeps(c: Config, s: State)
    requires Inv(c, s) && s.producer.Idle?
    ensures Inv(c, Apply(c, s, Produce))
  {
    var s' := Apply(c, s, Produce);
    ProduceNarrows(s, s');
    NarrowingKeeps(s, s');
    NarrowingKeepsRow(s, s');
    assert Accounted(s') by {
      forall i | i in s'.fate && s'.fate[i] == Delivered ensures HubHas(s', i) { HubKeeps(s, s', i); }
    }
  }

  /** A step that moves a snapshot along the pipeline changes nothing that the invariant talks about. */
  lemma MovingKeeps(s: State, s': State)
    requires InOrder(s) && HeldApart(s) && Accounted(s) && SpoolSafe(s) && TraceInOrder(s)
    requires Pipeline(s') == Pipeline(s) && (forall x | x in Behind(s') :: x in Behind(s))
    requires s' == s.(queue := s'.queue, producer := s'.producer)
    ensures InOrder(s') && HeldApart(s') && Accounted(s') && SpoolSafe(s') && TraceInOrder(s')
  {
    assert Narrows(s, s');
    NarrowingKeeps(s, s');
    NarrowingKeepsRow(s, s');
    forall i | i in s'.fate && s'.fate[i] == Delivered ensures HubHas(s', i) { HubKeeps(s, s', i); }
  }

  lemma TrySendKeeps(c: Config, s: State)
    requires Inv(c, s) && s.producer.Sending?
    ensures Inv(c, Apply(c, s, TrySend))
  {
    var s' := Apply(c, s, TrySend);
    if |s.queue| < c.capacity {
      assert Behind(s') == Behind(s);
    }
    assert Pipeline(s') == Pipeline(s);
    MovingKeeps(s, s');
  }

  lemma TryEvictKeeps(c: Config, s: State)
    requires Inv(c, s) && s.producer.Evicting?
    ensures Inv(c, Apply(c, s, TryEvict))
  {
    var s' := Apply(c, s, TryEvict);
    if s.queue != [] {
      assert s.queue == [s.queue[0]] + s.queue[1..];
      assert Pipeline(s') == Pipeline(s);
      assert Behind(s) == [s.queue[0]] + Behind(s');
    }
    MovingKeeps(s, s');
  }

  /** A step that takes the snapshots `gone` out of the agent and records their fate. */
  lemma LosingKeeps(s: State, s': State, gone: seq<nat>, f: Fate)
    requires Accounted(s) && s'.produced == s.produced && s.received <= s'.received
    requires s'.fate == Marked(s.fate, gone, f)
    requires forall x :: x in Pipeline(s) || x in Held(s) <==> x in Pipeline(s') || x in Held(s') || x in gone
    requires forall x | x in gone :: x !in Pipeline(s') && x !in Held(s')
    requires f == Delivered ==> forall x | x in gone :: HubHas(s', x)
    ensures Accounted(s')
  {
  }

  /** A put never disturbs the row under delivery. */
  lemma PutKeepsRow(c: Config, s: State, s': State, outcome: PutOutcome)
    requires SpoolSafe(s) && s.producer.Spilling?
    requires s'.spool == AfterPut(s.spool, s.producer.dropped, c.maxItems, outcome)
    requires s'.worker == s.worker && s'.received == s.received && s'.produced == s.produced
    requires forall x | x in Pipeline(s') :: x in Pipeline(s)
    ensures SpoolSafe(s')
  {
    PutKeepsNewest(s.spool, s.producer.dropped, c.maxItems, outcome);
    if s.worker.Deleting? {
      HubKeeps(s, s', s.worker.row.item);
    }
  }

  /** The dropped snapshot is lost: there is no spool, or the insert failed. */
  lemma SpillLostKeeps(c: Config, s: State, s': State, f: Fate)
    requires Inv(c, s) && s.producer.Spilling? && f != Delivered
    requires var p := s.producer;
      s' == s.(producer := Sending(p.item, p.attempts, p.spills + 1), fate := Marked(s.fate, [p.dropped], f))
    ensures Inv(c, s')
  {
    var d := s.producer.dropped;
    var older := Items(s.spool.rows);
    assert Pipeline(s) == older + [d] + Behind(s);
    assert Pipeline(s') == older + Behind(s');
    assert Behind(s') == Behind(s);
    RemoveFromMiddle(older, d, Behind(s));
    forall x | x in Pipeline(s') ensures x in Pipeline(s) {
      assert x in older || x in Behind(s);
    }
    assert Narrows(s, s');
    NarrowingKeeps(s, s');
    PutKeepsRow(c, s, s', InsertFails);
    LosingKeeps(s, s', [d], f);
  }

  /** The dropped snapshot becomes the spool's newest row, and the trim is skipped. */
  lemma SpillUntrimmedKeeps(c: Config, s: State, s': State)
    requires Inv(c, s) && s.producer.Spilling?
    requires var p := s.producer;
      s' == s.(producer := Sending(p.item, p.attempts, p.spills + 1), spool := Insert(s.spool, p.dropped))
    ensures Inv(c, s')
  {
    var d := s.producer.dropped;
    ItemsOfConcat(s.spool.rows, [Row(s.spool.nextId, d)]);
    assert Items([Row(s.spool.nextId, d)]) == [d];
    assert Pipeline(s') == Pipeline(s);
    assert Behind(s') == Behind(s);
    NarrowingKeeps(s, s');
    PutKeepsRow(c, s, s', TrimFails);
    assert s'.fate == Marked(s.fate, [], PutFailed);
    LosingKeeps(s, s', [], PutFailed);
  }

  /** Dropping a prefix of the pipeline keeps the rest in order. */
  lemma DropPrefix(a: seq<nat>, b: seq<nat>)
    requires Increasing(a + b)
    ensures Increasing(b) && (forall x | x in a :: x !in b)
  {
    var s := a + b;
    assert forall i | 0 <= i < |a| :: s[i] == a[i];
    assert forall i | 0 <= i < |b| :: s[|a| + i] == b[i];
  }

  /** The rows that a put into a full spool deletes. */
  function TrimmedRows(c: Config, s: State): seq<Row>
    requires s.producer.Spilling?
  {
    var full := Insert(s.spool, s.producer.dropped);
    full.rows[..Overflow(full, c.maxItems)]
  }

  /** A trimming put takes the oldest snapshots off the pipeline. */
  lemma SpillTrimmedShape(c: Config, s: State)
    requires s.producer.Spilling? && c.spoolEnabled
    ensures var s' := ApplySpill(c, s, Stored);
      && Pipeline(s) == Items(TrimmedRows(c, s)) + Pipeline(s')
      && Behind(s') == Behind(s) && Held(s') == Held(s) && WorkerRow(s') == WorkerRow(s)
      && s' == s.(producer := s'.producer, spool := s'.spool, fate := s'.fate)
      && s'.fate == Marked(s.fate, Items(TrimmedRows(c, s)), TrimmedOldest)
      && s'.spool == AfterPut(s.spool, s.producer.dropped, c.maxItems, Stored)
  {
  }

  /** The dropped snapshot is stored and the oldest rows beyond the limit are deleted. */
  lemma SpillTrimmedKeeps(c: Config, s: State)
    requires Inv(c, s) && s.producer.Spilling? && c.spoolEnabled
    ensures Inv(c, ApplySpill(c, s, Stored))
  {
    var s' := ApplySpill(c, s, Stored);
    var gone := Items(TrimmedRows(c, s));
    SpillTrimmedShape(c, s);
    PrefixLeaves(s, s', gone);
    NarrowingKeeps(s, s');
    PutKeepsRow(c, s, s', Stored);
    PrefixAccounted(s, s', gone, TrimmedOldest);
  }

  /** Taking the oldest snapshots off the pipeline narrows it. */
  lemma PrefixLeaves(s: State, s': State, gone: seq<nat>)
    requires InOrder(s) && s'.produced == s.produced && Behind(s') == Behind(s)
    requires Pipeline(s) == gone + Pipeline(s')
    ensures Narrows(s, s')
    ensures (forall x | x in Pipeline(s') :: x in Pipeline(s)) && (forall x | x in gone :: x !in Pipeline(s'))
  {
    DropPrefix(gone, Pipeline(s'));
    assert forall x | x in Pipeline(s') :: x in Pipeline(s);
  }

  lemma PrefixAccounted(s: State, s': State, gone: seq<nat>, f: Fate)
    requires Accounted(s) && HeldApart(s) && s'.produced == s.produced && s'.received == s.received
    requires Pipeline(s) == gone + Pipeline(s') && Held(s') == Held(s) && s'.fate == Marked(s.fate, gone, f)
    requires forall x | x in gone :: x !in Pipeline(s')
    requires f == Delivered ==> forall x | x in gone :: HubHas(s', x)
    ensures Accounted(s')
  {
    forall x ensures x in Pipeline(s) <==> x in gone || x in Pipeline(s') {
      assert x in gone + Pipeline(s') <==> x in gone || x in Pipeline(s');
    }
    LosingKeeps(s, s', gone, f);
  }

  lemma SpillKeeps(c: Config, s: State, outcome: PutOutcome)
    requires Inv(c, s) && s.producer.Spilling?
    ensures Inv(c, ApplySpill(c, s, outcome))
  {
    var s' := ApplySpill(c, s, outcome);
    if !c.spoolEnabled {
      SpillLostKeeps(c, s, s', SpoolDisabled);
    } else {
      match outcome
      case InsertFails => SpillLostKeeps(c, s, s', PutFailed);
      case TrimFails => SpillUntrimmedKeeps(c, s, s');
      case Stored => SpillTrimmedKeeps(c, s);
    }
  }

  /** The worker takes the queue's head: older than what stays behind it, and in no other place. */
  lemma TakeMoves(s: State, s': State)
    requires InOrder(s) && s.queue != [] && Held(s) == []
    requires s' == s.(queue := s.queue[1..], worker := Peeking(Some(s.queue[0])))
    ensures InOrder(s') && HeldApart(s') && Held(s') == [s.queue[0]]
    ensures Behind(s) == Held(s') + Behind(s')
    ensures forall x :: x in Pipeline(s) <==> x in Pipeline(s') || x in Held(s')
  {
    var h := s.queue[0];
    var ahead := Items(s.spool.rows) + Hand(s);
    assert s.queue == [h] + s'.queue;
    assert Pipeline(s) == ahead + [h] + Behind(s');
    assert Pipeline(s') == ahead + Behind(s');
    assert Behind(s) == [h] + Behind(s');
    RemoveFromMiddle(ahead, h, Behind(s'));
    assert Held(s') == [h] && h in Pipeline(s);
    assert forall x | x in Pipeline(s') :: x in ahead || x in Behind(s');
    forall x ensures x in Pipeline(s) <==> x in Pipeline(s') || x == h {
      assert x in Pipeline(s) <==> x in ahead || x == h || x in Behind(s');
      assert x in Pipeline(s') <==> x in ahead || x in Behind(s');
    }
  }

  lemma TakeKeeps(c: Config, s: State)
    requires Inv(c, s) && s.worker.Selecting? && s.queue != []
    ensures Inv(c, ApplyTake(s))
  {
    var s' := ApplyTake(s);
    TakeMoves(s, s');
    assert s'.fate == Marked(s.fate, [], LostAtStop);
    LosingKeeps(s, s', [], LostAtStop);
    assert TraceInOrder(s') by {
      assert forall x | x in Behind(s') || x in Held(s') :: x in Behind(s);
    }
  }

  /** The spool's head is the oldest of the pipeline and has the least id. */
  lemma HeadIsOldest(s: State)
    requires InOrder(s) && Ordered(s.spool) && s.spool.rows != []
    ensures var w := s.spool.rows[0];
      && w.item in Pipeline(s) && 1 <= w.id < s.spool.nextId
      && (forall x | x in Pipeline(s) :: w.item <= x)
      && (forall r | r in s.spool.rows :: w.id <= r.id && (r.id == w.id ==> r == w))
  {
    assert Pipeline(s)[0] == s.spool.rows[0].item;
  }

  /** The worker starts on the spool's head. */
  lemma PeekHeadKeeps(c: Config, s: State, s': State)
    requires Inv(c, s) && s.worker.Peeking? && s.spool.rows != []
    requires s' == s.(worker := SendingSpooled(s.spool.rows[0], 0, s.worker.held))
    ensures Inv(c, s')
  {
    assert Pipeline(s') == Pipeline(s) && Behind(s') == Behind(s) && Held(s') == Held(s);
    HeadIsOldest(s);
    SameAccounts(s, s');
  }

  lemma SameAccounts(s: State, s': State)
    requires Accounted(s) && s'.produced == s.produced && s.received <= s'.received && s'.fate == s.fate
    requires Pipeline(s') == Pipeline(s) && Held(s') == Held(s)
    ensures Accounted(s')
  {
  }

  lemma PeekKeeps(c: Config, s: State, fails: bool)
    requires Inv(c, s) && s.worker.Peeking?
    ensures Inv(c, ApplyPeek(c, s, fails))
  {
    var s' := ApplyPeek(c, s, fails);
    if !c.spoolEnabled || fails || s.spool.rows == [] {
      RepositionKeeps(c, s, s');
    } else {
      PeekHeadKeeps(c, s, s');
    }
  }

  lemma AppendToSends(sends: seq<nat>, x: nat)
    requires NonDecreasing(sends) && (forall y | y in sends :: y <= x)
    ensures NonDecreasing(sends + [x])
  {
    var t := sends + [x];
    forall i, j | 0 <= i < j < |t| ensures t[i] <= t[j] {
      assert t[i] == sends[i] && sends[i] in sends;
      assert j < |sends| ==> t[j] == sends[j];
    }
  }

  /** The hub receives the row under delivery: at least the previous spool send, at most everything waiting. */
  lemma ReceiveSpooledKeeps(s: State, s': State)
    requires InOrder(s) && HeldApart(s) && SpoolSafe(s) && TraceInOrder(s) && s.worker.SendingSpooled?
    requires s' == s.(received := s.received + [Receipt(s.worker.row.item, FromSpool)])
    ensures TraceInOrder(s') && HubHas(s', s.worker.row.item)
  {
    var r := Receipt(s.worker.row.item, FromSpool);
    SendsGrow(s.received, r, FromSpool);
    SendsGrow(s.received, r, FromQueue);
    AppendToSends(Sends(s.received, FromSpool), r.item);
    assert s'.received[|s.received|].item == r.item;
    assert Pipeline(s') == Pipeline(s) && Behind(s') == Behind(s) && Held(s') == Held(s);
  }

  lemma ReceiveFlushedKeeps(s: State, s': State)
    requires InOrder(s) && HeldApart(s) && TraceInOrder(s) && s.worker.Flushing?
    requires s' == s.(received := s.received + [Receipt(s.worker.item, FromQueue)])
    ensures TraceInOrder(s') && HubHas(s', s.worker.item)
  {
    var r := Receipt(s.worker.item, FromQueue);
    SendsGrow(s.received, r, FromSpool);
    SendsGrow(s.received, r, FromQueue);
    assert Held(s) == [r.item] && r.item in Held(s);
    AppendToSends(Sends(s.received, FromQueue), r.item);
    assert s'.received[|s.received|].item == r.item;
    assert Pipeline(s') == Pipeline(s) && Behind(s') == Behind(s) && Held(s') == Held(s);
  }

  /** The worker moves to another control point while nothing but its own position changes. */
  lemma RepositionKeeps(c: Config, s: State, s': State)
    requires Inv(c, s)
    requires s' == s.(worker := s'.worker) && Held(s') == Held(s)
    requires WorkerRow(s').Some? ==> WorkerRow(s') == WorkerRow(s)
    requires s'.worker.Deleting? ==> HubHas(s, s'.worker.row.item)
    ensures Inv(c, s')
  {
    assert Pipeline(s') == Pipeline(s) && Behind(s') == Behind(s);
    assert s'.fate == Marked(s.fate, [], LostAtStop);
    LosingKeeps(s, s', [], LostAtStop);
    if s'.worker.Deleting? {
      HubKeeps(s, s', s'.worker.row.item);
    }
  }

  /** The hub's processing of a request, seen apart from the client's reaction to the reply. */
  function Receive(s: State): State {
    match s.worker
    case SendingSpooled(row, _, _) => s.(received := s.received + [Receipt(row.item, FromSpool)])
    case Flushing(item, _) => s.(received := s.received + [Receipt(item, FromQueue)])
    case _ => s
  }

  lemma ReceiveKeeps(c: Config, s: State)
    requires Inv(c, s) && (s.worker.SendingSpooled? || s.worker.Flushing?)
    ensures Inv(c, Receive(s))
    ensures s.worker.SendingSpooled? ==> HubHas(Receive(s), s.worker.row.item)
    ensures s.worker.Flushing? ==> HubHas(Receive(s), s.worker.item)
  {
    var s' := Receive(s);
    assert Pipeline(s') == Pipeline(s) && Behind(s') == Behind(s) && Held(s') == Held(s);
    assert s'.fate == Marked(s.fate, [], LostAtStop);
    LosingKeeps(s, s', [], LostAtStop);
    if s.worker.SendingSpooled? {
      ReceiveSpooledKeeps(s, s');
    } else {
      ReceiveFlushedKeeps(s, s');
    }
  }

  function Released(s: State, f: Fate): State
    requires s.worker.Flushing?
  {
    s.(worker := Selecting, fate := Marked(s.fate, [s.worker.item], f))
  }

  /** The flushed snapshot leaves the worker with a fate. */
  lemma ReleaseKeeps(c: Config, s: State, s': State, f: Fate)
    requires Inv(c, s) && s.worker.Flushing?
    requires f == Delivered ==> HubHas(s, s.worker.item)
    requires s' == Released(s, f)
    ensures Inv(c, s')
  {
    var item := s.worker.item;
    assert Held(s) == [item] && Held(s') == [];
    assert Pipeline(s') == Pipeline(s) && Behind(s') == Behind(s);
    if f == Delivered {
      HubKeeps(s, s', item);
    }
    LosingKeeps(s, s', [item], f);
  }

  /** An attempt on a spooled row is the hub's receipt, if any, followed by a change of the worker's position. */
  lemma SpooledAttemptShape(c: Config, s: State, reply: Reply, mid: State, s': State)
    requires s.worker.SendingSpooled? && s' == ApplyAttempt(c, s, reply)
    requires mid == if reply.Accepted? || reply.AcceptedReplyLost? then Receive(s) else s
    ensures s' == mid.(worker := s'.worker) && Held(s') == Held(mid)
    ensures WorkerRow(s').Some? ==> WorkerRow(s') == WorkerRow(mid)
    ensures s'.worker.Deleting? ==> reply.Accepted? && s'.worker.row == s.worker.row
  {
  }

  lemma SpooledAttemptKeeps(c: Config, s: State, reply: Reply)
    requires Inv(c, s) && s.worker.SendingSpooled?
    ensures Inv(c, ApplyAttempt(c, s, reply))
  {
    var mid := if reply.Accepted? || reply.AcceptedReplyLost? then Receive(s) else s;
    var s' := ApplyAttempt(c, s, reply);
    SpooledAttemptShape(c, s, reply, mid, s');
    ReceiveKeeps(c, s);
    RepositionKeeps(c, mid, s');
  }

  /** An attempt on a flushed snapshot is the hub's receipt, if any, followed by a release or a change of position. */
  lemma FlushAttemptShape(c: Config, s: State, reply: Reply, s': State)
    requires s.worker.Flushing? && s' == ApplyAttempt(c, s, reply)
    ensures match reply
      case Accepted => s' == Released(Receive(s), Delivered)
      case AcceptedReplyLost => s' == Receive(s).(worker := s'.worker) && Held(s') == Held(Receive(s))
      case Unreachable => s' == s.(worker := s'.worker) && Held(s') == Held(s)
      case Refused => s' == Released(s, Rejected)
    ensures WorkerRow(s') == None && !s'.worker.Deleting?
  {
  }

  lemma FlushAttemptKeeps(c: Config, s: State, reply: Reply)
    requires Inv(c, s) && s.worker.Flushing?
    ensures Inv(c, ApplyAttempt(c, s, reply))
  {
    var s' := ApplyAttempt(c, s, reply);
    FlushAttemptShape(c, s, reply, s');
    if reply.Accepted? || reply.AcceptedReplyLost? {
      ReceiveKeeps(c, s);
      FlushReached(c, s, Receive(s), reply, s');
    } else if reply.Refused? {
      ReleaseKeeps(c, s, s', Rejected);
    } else {
      RepositionKeeps(c, s, s');
    }
  }

  lemma FlushReached(c: Config, s: State, mid: State, reply: Reply, s': State)
    requires Inv(c, mid) && s.worker.Flushing? && mid.worker == s.worker && HubHas(mid, s.worker.item)
    requires reply.Accepted? || reply.AcceptedReplyLost?
    requires if reply.Accepted? then s' == Released(mid, Delivered)
             else s' == mid.(worker := s'.worker) && Held(s') == Held(mid)
    requires WorkerRow(s') == None && !s'.worker.Deleting?
    ensures Inv(c, s')
  {
    if reply.Accepted? {
      ReleaseKeeps(c, mid, s', Delivered);
    } else {
      RepositionKeeps(c, mid, s');
    }
  }

  /** Removing the spool's head shortens the pipeline at its old end. */
  lemma DeleteHeadShape(s: State, s': State, w: Row)
    requires s.worker.Deleting? && s.spool.rows != [] && s.spool.rows[0] == w
    requires s' == s.(worker := Peeking(s.worker.held),
                      spool := s.spool.(rows := s.spool.rows[1..]),
                      fate := Marked(s.fate, [w.item], Delivered))
    ensures Pipeline(s) == [w.item] + Pipeline(s') && Behind(s') == Behind(s) && Held(s') == Held(s)
  {
  }

  lemma DeleteHeadKeeps(c: Config, s: State, s': State, w: Row)
    requires Inv(c, s) && s.worker.Deleting? && s.worker.row == w
    requires s.spool.rows != [] && s.spool.rows[0] == w
    requires s' == s.(worker := Peeking(s.worker.held),
                      spool := s.spool.(rows := s.spool.rows[1..]),
                      fate := Marked(s.fate, [w.item], Delivered))
    ensures Inv(c, s')
  {
    DeleteHeadShape(s, s', w);
    assert Narrows(s, s') by {
      DropPrefix([w.item], Pipeline(s'));
      assert forall x | x in Pipeline(s') :: x in Pipeline(s);
    }
    NarrowingKeeps(s, s');
    assert Accounted(s') by {
      HubKeeps(s, s', w.item);
      assert w.item in Pipeline(s);
      DropPrefix([w.item], Pipeline(s'));
      LosingKeeps(s, s', [w.item], Delivered);
    }
    assert Ordered(s'.spool) by {
      assert forall i | 0 <= i < |s'.spool.rows| :: s'.spool.rows[i] == s.spool.rows[i + 1];
    }
  }

  /** Deleting the row under delivery removes the spool's head, which the hub has, or nothing. */
  lemma DeleteShape(s: State, s': State)
    requires SpoolSafe(s) && s.worker.Deleting? && s' == ApplyDelete(s, false)
    ensures s' ==
      if s.spool.rows != [] && s.spool.rows[0].id == s.worker.row.id then
        s.(worker := Peeking(s.worker.held),
           spool := s.spool.(rows := s.spool.rows[1..]),
           fate := Marked(s.fate, [s.worker.row.item], Delivered))
      else s.(worker := Peeking(s.worker.held))
    ensures s.spool.rows != [] && s.spool.rows[0].id == s.worker.row.id ==> s.spool.rows[0] == s.worker.row
  {
    var w := s.worker.row;
    WithoutHead(s.spool, w.id);
    if s.spool.rows != [] && s.spool.rows[0].id == w.id {
      assert s.spool.rows[0] in s.spool.rows;
      RemovedHead(s.spool, w.id);
    } else {
      RemovedAbsent(s.spool, w.id);
      assert Marked(s.fate, [], Delivered) == s.fate;
    }
  }

  lemma ResumePeekingKeeps(c: Config, s: State)
    requires Inv(c, s) && s.worker.Deleting?
    ensures Inv(c, s.(worker := Peeking(s.worker.held)))
  {
    RepositionKeeps(c, s, s.(worker := Peeking(s.worker.held)));
  }

  lemma DeleteKeeps(c: Config, s: State, fails: bool)
    requires Inv(c, s) && s.worker.Deleting?
    ensures Inv(c, ApplyDelete(s, fails))
  {
    ResumePeekingKeeps(c, s);
    if !fails {
      var s' := ApplyDelete(s, false);
      DeleteShape(s, s');
      if s.spool.rows != [] && s.spool.rows[0].id == s.worker.row.id {
        DeleteHeadKeeps(c, s, s', s.worker.row);
      }
    }
  }

  lemma {:induction false} RemovedNone(rows: seq<Row>, id: nat)
    requires forall r | r in rows :: r.id != id
    ensures RemovedById(rows, id) == []
  {
    if rows != [] {
      assert rows[0] in rows;
      RemovedNone(rows[1..], id);
    }
  }

  lemma RemovedAbsent(t: Table, id: nat)
    requires Ordered(t)
    requires t.rows == [] || (t.rows[0].id != id && forall r | r in t.rows :: id <= r.id)
    ensures RemovedById(t.rows, id) == []
  {
    forall r | r in t.rows ensures r.id != id {
      var i :| 0 <= i < |t.rows| && t.rows[i] == r;
      assert t.rows[0] in t.rows;
      assert i == 0 || t.rows[0].id < t.rows[i].id;
    }
    RemovedNone(t.rows, id);
  }

  lemma RemovedHead(t: Table, id: nat)
    requires Ordered(t) && t.rows != [] && t.rows[0].id == id
    ensures RemovedById(t.rows, id) == [t.rows[0].item]
  {
    assert forall i | 0 <= i < |t.rows[1..]| :: t.rows[1..][i] == t.rows[i + 1];
    RemovedNone(t.rows[1..], id);
  }

  lemma AbandonKeeps(c: Config, s: State)
    requires Inv(c, s)
    ensures Inv(c, ApplyAbandon(s))
  {
    if s.stopping {
      if s.worker.Flushing? {
        ReleaseKeeps(c, s, ApplyAbandon(s), LostAtStop);
      } else {
        RepositionKeeps(c, s, ApplyAbandon(s));
      }
    }
  }

  /** What a stop takes along. */
  function Lost(s: State): seq<nat> {
    Hand(s) + s.queue + Incoming(s) + Held(s)
  }

  lemma RestartShape(s: State)
    ensures var s' := ApplyRestart(s);
      && Pipeline(s) == Pipeline(s') + (Hand(s) + s.queue + Incoming(s))
      && Behind(s') == [] && Held(s') == [] && WorkerRow(s') == None
      && s'.fate == Marked(s.fate, Lost(s), LostAtStop)
  {
  }

  lemma RestartAccounted(s: State, s': State)
    requires InOrder(s) && HeldApart(s) && Accounted(s) && s' == ApplyRestart(s)
    ensures Accounted(s')
  {
    RestartShape(s);
    var rest := Hand(s) + s.queue + Incoming(s);
    DropPrefix(Pipeline(s'), rest);
    assert Lost(s) == rest + Held(s);
    forall x ensures x in Pipeline(s) <==> x in Pipeline(s') || x in rest {
      assert x in Pipeline(s') + rest <==> x in Pipeline(s') || x in rest;
    }
    LosingKeeps(s, s', Lost(s), LostAtStop);
  }

  /** Only the spool is left of the pipeline. */
  ghost predicate OnlySpoolLeft(s: State, s': State) {
    && s'.produced == s.produced && s'.received == s.received && s'.spool == s.spool
    && (forall x | x in Pipeline(s') :: x in Pipeline(s))
    && Behind(s') == [] && Held(s') == [] && WorkerRow(s') == None && s'.worker.Peeking?
  }

  lemma RestartLeavesSpool(s: State, s': State)
    requires InOrder(s) && s' == ApplyRestart(s)
    ensures OnlySpoolLeft(s, s') && InOrder(s')
  {
    RestartShape(s);
    assert forall i | 0 <= i < |Pipeline(s')| :: Pipeline(s')[i] == Pipeline(s)[i];
  }

  lemma SpoolLeftOrdered(s: State, s': State)
    requires SpoolSafe(s) && TraceInOrder(s) && OnlySpoolLeft(s, s')
    ensures HeldApart(s') && SpoolSafe(s') && TraceInOrder(s')
  {
  }

  /** A stop at any point leaves exactly the spool; the rest is recorded as lost. */
  lemma RestartKeeps(c: Config, s: State)
    requires Inv(c, s)
    ensures Inv(c, ApplyRestart(s))
  {
    RestartAccounted(s, ApplyRestart(s));
    RestartLeavesSpool(s, ApplyRestart(s));
    SpoolLeftOrdered(s, ApplyRestart(s));
  }

  lemma ProducerStepKeeps(c: Config, s: State, step: Step)
    requires Inv(c, s) && (step.Produce? || step.TrySend? || step.TryEvict? || step.Spill?)
    ensures Inv(c, Apply(c, s, step))
  {
    match step
    case Produce => if s.producer.Idle? { ProduceKeeps(c, s); }
    case TrySend => if s.producer.Sending? { TrySendKeeps(c, s); }
    case TryEvict => if s.producer.Evicting? { TryEvictKeeps(c, s); }
    case Spill(outcome) => if s.producer.Spilling? { SpillKeeps(c, s, outcome); }
  }

  lemma TickKeeps(c: Config, s: State)
    requires Inv(c, s) && s.worker.Selecting?
    ensures Inv(c, s.(worker := Peeking(None)))
  {
    RepositionKeeps(c, s, s.(worker := Peeking(None)));
  }

  lemma AttemptKeeps(c: Config, s: State, reply: Reply)
    requires Inv(c, s)
    ensures Inv(c, ApplyAttempt(c, s, reply))
  {
    if s.worker.SendingSpooled? {
      SpooledAttemptKeeps(c, s, reply);
    } else if s.worker.Flushing? {
      FlushAttemptKeeps(c, s, reply);
    }
  }

  lemma TickStepKeeps(c: Config, s: State)
    requires Inv(c, s)
    ensures Inv(c, Apply(c, s, Tick))
  {
    if s.worker.Selecting? {
      TickKeeps(c, s);
    }
  }

  lemma TakeStepKeeps(c: Config, s: State)
    requires Inv(c, s)
    ensures Inv(c, ApplyTake(s))
  {
    if s.worker.Selecting? && s.queue != [] {
      TakeKeeps(c, s);
    }
  }

  lemma PeekStepKeeps(c: Config, s: State, fails: bool)
    requires Inv(c, s)
    ensures Inv(c, ApplyPeek(c, s, fails))
  {
    if s.worker.Peeking? {
      PeekKeeps(c, s, fails);
    }
  }

  lemma DeleteStepKeeps(c: Config, s: State, fails: bool)
    requires Inv(c, s)
    ensures Inv(c, ApplyDelete(s, fails))
  {
    if s.worker.Deleting? {
      DeleteKeeps(c, s, fails);
    }
  }

  /** Main result: every step of either goroutine, of the hub and of the environment keeps the invariant. */
  lemma StepKeeps(c: Config, s: State, step: Step)
    requires Inv(c, s)
    ensures Inv(c, Apply(c, s, step))
  {
    if step.Produce? || step.TrySend? || step.TryEvict? || step.Spill? {
      ProducerStepKeeps(c, s, step);
    } else if step.Cancel? {
      CancelKeeps(c, s);
    } else if step.Abandon? {
      AbandonKeeps(c, s);
    } else if step.Restart? {
      RestartKeeps(c, s);
    } else if step.Attempt? {
      AttemptKeeps(c, s, step.reply);
    } else if step.Tick? {
      TickStepKeeps(c, s);
    } else if step.Take? {
      TakeStepKeeps(c, s);
    } else if step.Peek? {
      PeekStepKeeps(c, s, step.fails);
    } else {
      DeleteStepKeeps(c, s, step.fails);
    }
  }

  lemma CancelKeeps(c: Config, s: State)
    requires Inv(c, s)
    ensures Inv(c, s.(stopping := true))
  {
    var s' := s.(stopping := true);
    assert Pipeline(s') == Pipeline(s) && Behind(s') == Behind(s) && Held(s') == Held(s);
    assert s'.fate == Marked(s.fate, [], LostAtStop);
    LosingKeeps(s, s', [], LostAtStop);
    if s.worker.Deleting? {
      HubKeeps(s, s', s.worker.row.item);
    }
  }

  lemma {:induction false} ExecFromKeeps(c: Config, s: State, steps: seq<Step>)
    requires Inv(c, s)
    ensures Inv(c, ExecFrom(c, s, steps))
  {
    if steps != [] {
      var front := steps[..|steps| - 1];
      ExecFromKeeps(c, s, front);
      StepKeeps(c, ExecFrom(c, s, front), steps[|steps| - 1]);
    }
  }

  lemma RunInv(c: Config, steps: seq<Step>)
    ensures Inv(c, Exec(c, steps))
  {
    InitInv(c);
    ExecFromKeeps(c, INIT, steps);
  }
}
