/**
  The push client in its own form: methods with loops over the shared queue and spool,
  with the other goroutine's steps running in between.  The object's history is a run of
  the step machine that ends in the object's state, so everything proved about runs holds.
 */
module PushClient {
  import opened Sequences
  import opened SpoolQueue
  import opened PushMachine
  import opened PushInvariant
  import opened PushTheorems

  lemma Extend(c: Config, history: seq<Step>, step: Step)
    ensures Exec(c, history + [step]) == Apply(c, Exec(c, history), step)
  {
  }

  lemma RunBounded(c: Config, history: seq<Step>)
    ensures Bounded(c, Exec(c, history))
  {
    RunInv(c, history);
  }

  /** What can happen while the producer is between two of its own steps. */
  predicate WorkerSide(step: Step) {
    !ProducerStep(step) && !step.Produce? && !step.Restart?
  }

  /** What can happen while the worker is between two of its own steps. */
  predicate ProducerSide(step: Step) {
    ProducerStep(step) || step.Produce? || step.Cancel?
  }

  lemma WorkerSideKeepsProducer(c: Config, s: State, step: Step)
    requires WorkerSide(step)
    ensures Apply(c, s, step).producer == s.producer && Apply(c, s, step).produced == s.produced
  {
  }

  lemma ProducerSideKeepsWorker(c: Config, s: State, step: Step)
    requires ProducerSide(step)
    ensures var s' := Apply(c, s, step);
      s'.worker == s.worker && s'.received == s.received && (s.stopping ==> s'.stopping)
  {
  }

  datatype SendResult = Sent | Permanent | Exhausted | Cancelled

  /**
    Why the drain of the spool ended: the spool is off, could not be read or is empty, a row was
    not accepted, or the budget was used up.
   */
  datatype DrainEnd = SpoolOff | ReadFailed | Empty | NotAccepted(result: SendResult) | BudgetSpent

  lemma ReceivedGrows(c: Config, s: State, step: Step)
    ensures s.received <= Apply(c, s, step).received
  {
  }

  lemma StillReceived(s: State, s': State, sent: seq<Row>)
    requires s.received <= s'.received && forall i | 0 <= i < |sent| :: HubHas(s, sent[i].item)
    ensures forall i | 0 <= i < |sent| :: HubHas(s', sent[i].item)
  {
    forall i | 0 <= i < |sent| ensures HubHas(s', sent[i].item) {
      HubKeeps(s, s', sent[i].item);
    }
  }

  // ---------- What a history has more than an earlier one ----------

  /** A step of the producer, or one of the worker's while it drains the spool or flushes a snapshot. */
  predicate InTurn(step: Step) {
    ProducerSide(step) || step.Peek? || step.Attempt? || step.Delete? || step.Abandon?
  }

  ghost predicate Grown(before: seq<Step>, after: seq<Step>) {
    before <= after && forall i | |before| <= i < |after| :: InTurn(after[i])
  }

  /** Any steps but the end of the process. */
  ghost predicate SameProcess(before: seq<Step>, after: seq<Step>) {
    before <= after && forall i | |before| <= i < |after| :: !after[i].Restart?
  }

  /** How often the worker has gone round its select loop. */
  function Turns(history: seq<Step>): nat {
    if history == [] then 0
    else
      var step := history[|history| - 1];
      Turns(history[..|history| - 1]) + (if step.Tick? || step.Take? then 1 else 0)
  }

  /** The snapshots the worker has taken from the queue. */
  function TakenIn(c: Config, history: seq<Step>): seq<nat> {
    if history == [] then []
    else
      var front, step := history[..|history| - 1], history[|history| - 1];
      var s := Exec(c, front);
      TakenIn(c, front) + (if step.Take? && s.worker.Selecting? && s.queue != [] then [s.queue[0]] else [])
  }

  lemma {:induction false} GrownTakesNothing(c: Config, before: seq<Step>, after: seq<Step>)
    requires Grown(before, after)
    ensures Turns(after) == Turns(before) && TakenIn(c, after) == TakenIn(c, before)
  {
    if |before| < |after| {
      var front := after[..|after| - 1];
      GrownTakesNothing(c, before, front);
      assert InTurn(after[|after| - 1]);
      assert TakenIn(c, front) + [] == TakenIn(c, front);
    } else {
      assert before == after;
    }
  }

  lemma GrownSameProcess(before: seq<Step>, after: seq<Step>)
    requires Grown(before, after)
    ensures SameProcess(before, after)
  {
  }

  /** The fates that a flush can end with. */
  ghost predicate Flushed(s: State, item: nat) {
    && item in s.fate && s.fate[item] in {Delivered, Rejected, LostAtStop}
    && (s.fate[item] == Delivered ==> HubHas(s, item))
    && (s.fate[item] == LostAtStop ==> s.stopping)
  }

  lemma FlushedKept(c: Config, s: State, step: Step, item: nat)
    requires Inv(c, s) && Flushed(s, item) && !step.Restart?
    ensures Flushed(Apply(c, s, step), item)
  {
    FatesAreFinal(c, s, step, item);
    ReceivedGrows(c, s, step);
    if s.fate[item] == Delivered {
      HubKeeps(s, Apply(c, s, step), item);
    }
  }

  lemma {:induction false} FlushedForGood(c: Config, before: seq<Step>, after: seq<Step>, item: nat)
    requires SameProcess(before, after) && Flushed(Exec(c, before), item)
    ensures Flushed(Exec(c, after), item)
  {
    if |before| < |after| {
      var front := after[..|after| - 1];
      FlushedForGood(c, before, front, item);
      RunInv(c, front);
      FlushedKept(c, Exec(c, front), after[|after| - 1], item);
    } else {
      assert before == after;
    }
  }

  /** Why the select loop ended: the client was stopped, or a bound on what is looked at was reached. */
  datatype RunEnd = Stopped | TurnsSpent | Unfinished

  class Client {
    const config: Config
    const spool: Spool
    var queue: seq<nat>
    var produced: nat
    var producer: Producer
    var worker: Worker
    var stopping: bool
    var received: seq<Receipt>
    var fate: map<nat, Fate>
    ghost var history: seq<Step>

    function View(): State
      reads this, spool
    {
      State(produced, queue, spool.View(), producer, worker, stopping, received, fate)
    }

    ghost predicate Valid()
      reads this, spool
    {
      spool.maxItems == config.maxItems && View() == Exec(config, history)
    }

    constructor (c: Config, newSpool: Spool)
      requires newSpool.View() == Table([], 1) && newSpool.maxItems == c.maxItems
      ensures Valid() && View() == INIT && config == c && spool == newSpool
    {
      config, spool := c, newSpool;
      queue, produced, producer, worker, stopping := [], 0, Idle, Peeking(None), false;
      received, fate, history := [], map[], [];
    }

    /** A step of the environment or of the other goroutine. */
    method Perform(step: Step)
      requires Valid()
      modifies this, spool
      ensures Valid() && history == old(history) + [step] && View() == Apply(config, old(View()), step)
    {
      Extend(config, history, step);
      var s := Apply(config, View(), step);
      queue, produced, producer, worker, stopping := s.queue, s.produced, s.producer, s.worker, s.stopping;
      received, fate := s.received, s.fate;
      spool.rows, spool.nextId := s.spool.rows, s.spool.nextId;
      history := history + [step];
    }

    /** The scheduler lets the worker, the hub and the environment run for a while. */
    method WorkerRuns()
      requires Valid()
      modifies this, spool
      ensures Valid() && old(history) <= history
      ensures producer == old(producer) && produced == old(produced)
    {
      var n: nat := *;
      var i := 0;
      while i < n
        invariant Valid() && old(history) <= history
        invariant producer == old(producer) && produced == old(produced)
      {
        i := i + 1;
        var step: Step := *;
        if WorkerSide(step) {
          WorkerSideKeepsProducer(config, View(), step);
          Perform(step);
        }
      }
    }

    /** The scheduler lets the producer run for a while. */
    method ProducerRuns()
      requires Valid()
      modifies this, spool
      ensures Valid() && Grown(old(history), history)
      ensures worker == old(worker) && received == old(received) && (old(stopping) ==> stopping)
    {
      var n: nat := *;
      var i := 0;
      while i < n
        invariant Valid() && Grown(old(history), history)
        invariant worker == old(worker) && received == old(received) && (old(stopping) ==> stopping)
      {
        i := i + 1;
        var step: Step := *;
        if ProducerSide(step) {
          ProducerSideKeepsWorker(config, View(), step);
          Perform(step);
        }
      }
    }

    method SpillToSpool(dropped: nat, outcome: PutOutcome)
      requires Valid() && producer.Spilling? && producer.dropped == dropped
      modifies this, spool
      ensures Valid() && history == old(history) + [Spill(outcome)]
      ensures producer == Sending(old(producer).item, old(producer).attempts, old(producer).spills + 1)
      ensures produced == old(produced)
    {
      Extend(config, history, Spill(outcome));
      history := history + [Spill(outcome)];
      var p := producer;
      producer := Sending(p.item, p.attempts, p.spills + 1);
      if !config.spoolEnabled {
        fate := Marked(fate, [dropped], SpoolDisabled);
        return;
      }
      var full := Insert(spool.View(), dropped);
      var ok := spool.Put(dropped, outcome);
      if outcome.InsertFails? {
        fate := Marked(fate, [dropped], PutFailed);
      } else if ok {
        fate := Marked(fate, Items(full.rows[..Overflow(full, config.maxItems)]), TrimmedOldest);
      }
    }

    /** The first select of Enqueue's loop. */
    method TrySendOnce() returns (sent: bool)
      requires Valid() && producer.Sending?
      modifies this, spool
      ensures Valid() && history == old(history) + [TrySend] && produced == old(produced)
      ensures sent == (|old(queue)| < config.capacity) && |queue| <= config.capacity
      ensures queue == if sent then old(queue) + [old(producer).item] else old(queue)
      ensures old(producer).attempts == 0 || sent
      ensures producer == if sent then Idle
        else Evicting(old(producer).item, old(producer).attempts + 1, old(producer).spills)
    {
      RunBounded(config, history);
      Extend(config, history, TrySend);
      history := history + [TrySend];
      if |queue| < config.capacity {
        queue := queue + [producer.item];
        producer := Idle;
        return true;
      }
      producer := Evicting(producer.item, producer.attempts + 1, producer.spills);
      return false;
    }

    /** The second select: take the oldest snapshot, unless the worker has emptied the queue. */
    method TryEvictOnce() returns (dropped: Option<nat>)
      requires Valid() && producer.Evicting?
      modifies this, spool
      ensures Valid() && history == old(history) + [TryEvict] && produced == old(produced)
      ensures var p := old(producer);
        match dropped
        case None => producer == Sending(p.item, p.attempts, p.spills)
        case Some(d) => producer == Spilling(p.item, d, p.attempts, p.spills)
    {
      Extend(config, history, TryEvict);
      history := history + [TryEvict];
      var p := producer;
      if |queue| == 0 {
        producer := Sending(p.item, p.attempts, p.spills);
        return None;
      }
      dropped := Some(queue[0]);
      queue := queue[1..];
      producer := Spilling(p.item, dropped.value, p.attempts, p.spills);
    }

    /** After a full queue: evict the oldest snapshot, unless the worker was faster, and spill it. */
    method MakeRoom() returns (spilled: bool)
      requires Valid() && producer.Evicting?
      modifies this, spool
      ensures Valid() && old(history) <= history && produced == old(produced)
      ensures producer == Sending(old(producer).item, old(producer).attempts,
                                  old(producer).spills + if spilled then 1 else 0)
    {
      WorkerRuns();
      var dropped := TryEvictOnce();
      if dropped.None? {
        return false;
      }
      WorkerRuns();
      var outcome: PutOutcome := *;
      SpillToSpool(dropped.value, outcome);
      return true;
    }

    /** One pass of Enqueue's loop. */
    method EnqueuePass() returns (sent: bool, spilled: bool)
      requires Valid() && producer.Sending?
      modifies this, spool
      ensures Valid() && old(history) <= history && produced == old(produced)
      ensures sent || old(producer).attempts == 0
      ensures sent ==> producer.Idle? && !spilled && |queue| <= config.capacity
      ensures sent ==> queue != [] && queue[|queue| - 1] == old(producer).item
      ensures !sent ==> producer == Sending(old(producer).item, old(producer).attempts + 1,
                                            old(producer).spills + if spilled then 1 else 0)
    {
      WorkerRuns();
      sent := TrySendOnce();
      spilled := false;
      if !sent {
        spilled := MakeRoom();
      }
    }

    /**
      Enqueue returns whatever the worker does meanwhile, after at most two sends and one
      spill, and the new snapshot is then the newest of the queue.
     */
    method Enqueue() returns (attempts: nat, spills: nat)
      requires Valid() && producer.Idle?
      modifies this, spool
      ensures Valid() && old(history) <= history
      ensures producer.Idle? && produced == old(produced) + 1
      ensures 1 <= attempts <= 2 && spills < attempts
      ensures 0 < |queue| <= config.capacity && queue[|queue| - 1] == old(produced)
    {
      Perform(Produce);
      attempts, spills := 0, 0;
      var sent := false;
      while !sent
        invariant Valid() && old(history) <= history && produced == old(produced) + 1
        invariant if sent then producer.Idle? && spills < attempts <= 2
                  else producer.Sending? && producer.attempts == attempts <= 1 && spills <= attempts
        invariant if sent then 0 < |queue| <= config.capacity && queue[|queue| - 1] == old(produced)
                  else producer.item == old(produced)
        decreases if sent then 0 else 1, 2 - attempts
      {
        var spilled;
        sent, spilled := EnqueuePass();
        attempts := attempts + 1;
        spills := spills + if spilled then 1 else 0;
      }
    }

    /** Where the worker must stand for sendBatch to be called with this snapshot. */
    predicate AtBatch(item: nat)
      reads this
    {
      match worker
      case SendingSpooled(row, k, _) => k == 0 && row.item == item
      case Flushing(i, k) => k == 0 && i == item
      case _ => false
    }

    /** What the worker goes on with after a batch. */
    ghost predicate Continues(before: Worker, result: SendResult)
      reads this, spool
    {
      match before
      case SendingSpooled(row, _, held) =>
        if result.Sent? then worker == Deleting(row, held) && HubHas(View(), row.item)
        else worker == AfterDrain(held)
      case Flushing(item, _) =>
        (match result
         case Sent => worker == Selecting && item in fate && fate[item] == Delivered && HubHas(View(), item)
         case Permanent => worker == Selecting && item in fate && fate[item] == Rejected
         case Cancelled => worker == Selecting && item in fate && fate[item] == LostAtStop && stopping
         case Exhausted => worker == Flushing(item, 0))
      case _ => true
    }

    /** The worker's position after some failed attempts of a batch. */
    function Retrying(before: Worker, attempts: nat): Worker {
      match before
      case SendingSpooled(row, _, held) => SendingSpooled(row, attempts, held)
      case Flushing(item, _) => Flushing(item, attempts)
      case _ => before
    }

    /** What the hub has received with a request that reached it. */
    function Arrived(before: Worker, reply: Reply): seq<Receipt> {
      if !reply.Accepted? && !reply.AcceptedReplyLost? then []
      else
        match before
        case SendingSpooled(row, _, _) => [Receipt(row.item, FromSpool)]
        case Flushing(item, _) => [Receipt(item, FromQueue)]
        case _ => []
    }

    /** One request, with whatever the hub makes of it; it reaches the hub also when only the reply is lost. */
    method Send(before: Worker, attempts: nat) returns (reply: Reply)
      requires Valid() && attempts < config.maxRetries
      requires (before.SendingSpooled? || before.Flushing?) && worker == Retrying(before, attempts)
      modifies this, spool
      ensures Valid() && Grown(old(history), history) && received == old(received) + Arrived(before, reply)
      ensures reply.Accepted? ==> Continues(before, Sent)
      ensures reply.Refused? ==> Continues(before, Permanent)
      ensures !reply.Accepted? && !reply.Refused? ==>
        if attempts + 1 < config.maxRetries then worker == Retrying(before, attempts + 1)
        else Continues(before, Exhausted)
    {
      reply := *;
      ReceivedGrows(config, View(), Attempt(reply));
      Perform(Attempt(reply));
      if reply.Accepted? {
        assert received[|received| - 1].item == if before.SendingSpooled? then before.row.item else before.item;
      }
    }

    /** The wait before a further attempt, which the end of the client may cut short. */
    method Wait(before: Worker, attempts: nat) returns (cancelled: bool)
      requires Valid() && (before.SendingSpooled? || before.Flushing?) && worker == Retrying(before, attempts)
      modifies this, spool
      ensures Valid() && Grown(old(history), history) && old(received) <= received
      ensures if cancelled then Continues(before, Cancelled) else worker == Retrying(before, attempts)
    {
      ProducerRuns();
      cancelled := *;
      cancelled := cancelled && stopping;
      if cancelled {
        ReceivedGrows(config, View(), Abandon);
        Perform(Abandon);
      }
    }

    /**
      Up to maxRetries attempts, with the producer running during the waits.  A success means
      that the hub has the snapshot; a 4xx ends the batch at once.
     */
    method SendBatch(item: nat) returns (result: SendResult, attempts: nat)
      requires Valid() && AtBatch(item)
      modifies this, spool
      ensures Valid() && Grown(old(history), history) && old(received) <= received
      ensures attempts <= config.maxRetries
      ensures result.Exhausted? ==> attempts == config.maxRetries
      ensures Continues(old(worker), result)
    {
      var before := worker;
      ProducerRuns();
      attempts := 0;
      while attempts < config.maxRetries
        invariant Valid() && Grown(old(history), history) && old(received) <= received
        invariant attempts <= config.maxRetries
        invariant attempts < config.maxRetries ==> worker == Retrying(before, attempts)
        invariant attempts == config.maxRetries ==> Continues(before, Exhausted)
      {
        if attempts > 0 {
          var cancelled := Wait(before, attempts);
          if cancelled {
            return Cancelled, attempts;
          }
        }
        var reply := Send(before, attempts);
        attempts := attempts + 1;
        if reply.Accepted? {
          return Sent, attempts;
        }
        if reply.Refused? {
          return Permanent, attempts;
        }
      }
      return Exhausted, attempts;
    }

    /** The oldest row, if the spool is on, can be read and has one. */
    method PeekSpool(fails: bool) returns (head: Option<Row>, why: DrainEnd)
      requires Valid() && worker.Peeking?
      modifies this, spool
      ensures Valid() && history == old(history) + [Peek(fails)]
      ensures received == old(received) && spool.rows == old(spool.rows)
      ensures head == if config.spoolEnabled && !fails && spool.rows != [] then Some(spool.rows[0]) else None
      ensures head.None? ==>
        why == if !config.spoolEnabled then SpoolOff else if fails then ReadFailed else Empty
      ensures worker == match head
                        case None => AfterDrain(old(worker).held)
                        case Some(row) => SendingSpooled(row, 0, old(worker).held)
    {
      Extend(config, history, Peek(fails));
      history := history + [Peek(fails)];
      var held := worker.held;
      if !config.spoolEnabled {
        worker := AfterDrain(held);
        return None, SpoolOff;
      }
      var ok;
      head, ok := spool.Peek(fails);
      worker := if !ok || head.None? then AfterDrain(held) else SendingSpooled(head.value, 0, held);
      why := if ok then Empty else ReadFailed;
    }

    method DeleteSpooled(row: Row, fails: bool)
      requires Valid() && worker.Deleting? && worker.row == row
      modifies this, spool
      ensures Valid() && history == old(history) + [Delete(fails)]
      ensures worker == Peeking(old(worker).held) && received == old(received)
    {
      ghost var s := View();
      Extend(config, history, Delete(fails));
      history := history + [Delete(fails)];
      if !fails && row.id != 0 {
        fate := Marked(fate, RemovedById(spool.rows, row.id), Delivered);
      }
      var deleted := spool.Delete(row.id, fails);
      worker := Peeking(worker.held);
      assert View() == ApplyDelete(s, fails);
    }

    /** What has been seen when the drain ends; the last step was then the look at the spool. */
    predicate EndSeen(end: DrainEnd)
      reads this, spool
    {
      match end
      case SpoolOff => !config.spoolEnabled
      case ReadFailed => config.spoolEnabled
      case Empty => config.spoolEnabled && spool.rows == []
      case NotAccepted(result) => !result.Sent?
      case BudgetSpent => true
    }

    /** A failed read is the last step of the history, and so is the read of an empty spool. */
    ghost predicate LastLook(end: DrainEnd)
      reads this
    {
      && (end.ReadFailed? ==> history != [] && history[|history| - 1] == Peek(true))
      && (end.Empty? ==> history != [] && history[|history| - 1] == Peek(false))
    }

    /** Peeks, sends and deletes one spool head, with the producer running in between. */
    method DrainOne() returns (sent: Option<Row>, end: DrainEnd)
      requires Valid() && worker.Peeking?
      modifies this, spool
      ensures Valid() && Grown(old(history), history) && old(received) <= received
      ensures match sent
        case Some(row) => HubHas(View(), row.item) && worker == old(worker)
        case None => worker == AfterDrain(old(worker).held) && !end.BudgetSpent? && EndSeen(end) && LastLook(end)
    {
      ProducerRuns();
      var fails: bool := *;
      var head;
      head, end := PeekSpool(fails);
      if head.None? {
        return None, end;
      }
      var result, attempts := SendBatch(head.value.item);
      if !result.Sent? {
        return None, NotAccepted(result);
      }
      ghost var got := View();
      ProducerRuns();
      fails := *;
      DeleteSpooled(head.value, fails);
      StillReceived(got, View(), [head.value]);
      return head, BudgetSpent;
    }

    /**
      Sends and deletes spool heads until one is not accepted; `budget` bounds the rows seen.
      Every row counted as sent was received by the hub.
     */
    method DrainSpoolUntilBlocked(budget: nat) returns (sent: seq<Row>, end: DrainEnd)
      requires Valid() && worker.Peeking?
      modifies this, spool
      ensures Valid() && Grown(old(history), history) && old(received) <= received
      ensures |sent| <= budget && (end.BudgetSpent? <==> |sent| == budget)
      ensures forall i | 0 <= i < |sent| :: HubHas(View(), sent[i].item)
      ensures worker == if end.BudgetSpent? then old(worker) else AfterDrain(old(worker).held)
      ensures EndSeen(end) && LastLook(end)
    {
      var held := worker.held;
      sent := [];
      while |sent| < budget
        invariant Valid() && Grown(old(history), history) && old(received) <= received
        invariant |sent| <= budget && worker == Peeking(held)
        invariant forall i | 0 <= i < |sent| :: HubHas(View(), sent[i].item)
        decreases budget - |sent|
      {
        ghost var before := View();
        var one, why := DrainOne();
        StillReceived(before, View(), sent);
        if one.None? {
          return sent, why;
        }
        sent := sent + [one.value];
      }
      return sent, BudgetSpent;
    }

    /**
      Retries a queued snapshot until the hub takes or refuses it or the client stops, with
      the fate that belongs to the end; `budget` bounds the batches seen.
     */
    method FlushUntilSent(item: nat, budget: nat) returns (end: SendResult)
      requires Valid() && worker == Flushing(item, 0)
      modifies this, spool
      ensures Valid() && Grown(old(history), history) && old(received) <= received
      ensures Continues(Flushing(item, 0), end)
    {
      var batches := 0;
      while batches < budget
        invariant Valid() && Grown(old(history), history) && old(received) <= received
        invariant worker == Flushing(item, 0)
      {
        batches := batches + 1;
        var result, attempts := SendBatch(item);
        if !result.Exhausted? {
          return result;
        }
        var cancelled := Wait(Flushing(item, 0), 0);
        if cancelled {
          return Cancelled;
        }
      }
      return Exhausted;
    }

    method TakeFromQueue()
      requires Valid() && worker.Selecting? && |queue| > 0
      modifies this, spool
      ensures Valid() && history == old(history) + [Take]
      ensures worker == Peeking(Some(old(queue)[0])) && queue == old(queue)[1..] && received == old(received)
    {
      Extend(config, history, Take);
      history := history + [Take];
      var snap := queue[0];
      queue := queue[1..];
      worker := Peeking(Some(snap));
    }

    /** The select's receive or tick, whichever is ready. */
    method Select() returns (taken: Option<nat>)
      requires Valid() && worker.Selecting?
      modifies this, spool
      ensures Valid() && SameProcess(old(history), history) && old(received) <= received
      ensures worker == Peeking(taken) && Turns(history) == Turns(old(history)) + 1
      ensures TakenIn(config, history) == TakenIn(config, old(history)) + (if taken.Some? then [taken.value] else [])
    {
      ProducerRuns();
      GrownTakesNothing(config, old(history), history);
      var tick: bool := *;
      if tick || |queue| == 0 {
        ReceivedGrows(config, View(), Tick);
        Perform(Tick);
        taken := None;
      } else {
        taken := Some(queue[0]);
        TakeFromQueue();
      }
    }

    /** Where the worker is after a turn with the snapshot it took. */
    ghost predicate TurnEnds(taken: Option<nat>)
      reads this, spool
    {
      match worker
      case Selecting => taken.Some? ==> Flushed(View(), taken.value)
      case Peeking(held) => held == taken
      case Flushing(item, attempts) => taken == Some(item) && attempts == 0
      case _ => false
    }

    /**
      One turn of the select loop: a tick or one snapshot, the drain of the spool, and the
      flush of the snapshot; it ends in the loop, or where a budget was used up.
     */
    method Turn(budget: nat) returns (taken: Option<nat>)
      requires Valid() && worker.Selecting?
      modifies this, spool
      ensures Valid() && SameProcess(old(history), history) && old(received) <= received
      ensures Turns(history) == Turns(old(history)) + 1 && TurnEnds(taken)
      ensures TakenIn(config, history) == TakenIn(config, old(history)) + (if taken.Some? then [taken.value] else [])
    {
      taken := Select();
      ghost var selected := history;
      var sent, end := DrainSpoolUntilBlocked(budget);
      if worker.Flushing? {
        var result := FlushUntilSent(worker.item, budget);
      }
      GrownTakesNothing(config, selected, history);
      GrownSameProcess(selected, history);
    }

    /** Each snapshot taken so far has met its fate, except perhaps the last, which the worker still holds. */
    ghost predicate AllFlushed(taken: seq<nat>)
      reads this, spool
    {
      && (forall i | 0 <= i < |taken| - 1 :: Flushed(View(), taken[i]))
      && (taken != [] ==> Flushed(View(), taken[|taken| - 1]) || WorkerItem(View()) == Some(taken[|taken| - 1]))
      && (worker.Selecting? ==> forall i | 0 <= i < |taken| :: Flushed(View(), taken[i]))
    }

    lemma TakenForGood(before: seq<Step>, taken: seq<nat>)
      requires Valid() && SameProcess(before, history)
      requires forall i | 0 <= i < |taken| :: Flushed(Exec(config, before), taken[i])
      ensures forall i | 0 <= i < |taken| :: Flushed(View(), taken[i])
    {
      forall i | 0 <= i < |taken| ensures Flushed(View(), taken[i]) {
        FlushedForGood(config, before, history, taken[i]);
      }
    }

    /**
      What the select loop has done since an earlier point: gone round so many times, and taken
      these snapshots from the queue.
     */
    ghost predicate Ran(before: seq<Step>, got: seq<Receipt>, turns: nat, taken: seq<nat>)
      reads this, spool
    {
      && Valid() && SameProcess(before, history) && got <= received
      && |taken| <= turns && Turns(history) == Turns(before) + turns
      && TakenIn(config, history) == TakenIn(config, before) + taken && AllFlushed(taken)
    }

    /** The select loop's next turn. */
    method TurnOn(budget: nat, taken: seq<nat>, ghost before: seq<Step>, ghost got: seq<Receipt>, ghost turns: nat)
      returns (all: seq<nat>)
      requires worker.Selecting? && Ran(before, got, turns, taken)
      modifies this, spool
      ensures Ran(before, got, turns + 1, all)
      ensures worker.Selecting? || worker.Peeking? || (worker.Flushing? && worker.attempt == 0)
    {
      ghost var start := history;
      var one := Turn(budget);
      TakenForGood(start, taken);
      all := taken + if one.Some? then [one.value] else [];
    }

    /** The select loop. */
    method Loop(turns: nat, budget: nat) returns (turn: nat, taken: seq<nat>, end: RunEnd)
      requires Valid() && (worker.Selecting? || worker == Peeking(None))
      modifies this, spool
      ensures turn <= turns && Ran(old(history), old(received), turn, taken)
      ensures match end
        case Stopped => worker.Selecting? && stopping
        case TurnsSpent => worker.Selecting? && turn == turns
        case Unfinished => worker.Peeking? || (worker.Flushing? && worker.attempt == 0)
    {
      turn, taken := 0, [];
      while turn < turns && worker.Selecting?
        invariant turn <= turns && Ran(old(history), old(received), turn, taken)
        invariant worker.Selecting? || worker.Peeking? || (worker.Flushing? && worker.attempt == 0)
      {
        var done: bool := *;
        if stopping && done {
          return turn, taken, Stopped;
        }
        taken := TurnOn(budget, taken, old(history), old(received), turn);
        turn := turn + 1;
      }
      end := if worker.Selecting? then TurnsSpent else Unfinished;
    }

    /**
      Run: the start-up drain, then ticks and snapshots in any order until the client stops;
      `turns` and `budget` bound what is looked at.  The snapshots in `taken` are those the
      worker took from the queue meanwhile, at most one a turn, and each has met its fate by
      the end unless the worker still holds it.  As at every step, each snapshot produced so
      far is in exactly one place or has its one fate.
     */
    method Run(turns: nat, budget: nat) returns (turn: nat, taken: seq<nat>, end: RunEnd)
      requires Valid() && worker == Peeking(None)
      modifies this, spool
      ensures turn <= turns && Ran(old(history), old(received), turn, taken)
      ensures match end
        case Stopped => worker.Selecting? && stopping
        case TurnsSpent => worker.Selecting? && turn == turns
        case Unfinished => worker.Peeking? || (worker.Flushing? && worker.attempt == 0)
      ensures NoDuplicates(Inside(View())) && |Inside(View())| + |fate| == produced
      ensures forall i: nat :: i < produced <==> i in Inside(View()) || i in fate
      ensures forall i | i in fate :: i !in Inside(View()) && (fate[i] == Delivered ==> HubHas(View(), i))
    {
      var sent, drained := DrainSpoolUntilBlocked(budget);
      GrownTakesNothing(config, old(history), history);
      GrownSameProcess(old(history), history);
      turn, taken, end := Loop(turns, budget);
      NoSilentLoss(config, history);
    }
  }
}
