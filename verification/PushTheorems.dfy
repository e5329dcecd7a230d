/** What the delivery protocol guarantees in every interleaving. */
module PushTheorems {
  import opened Sequences
  import opened SpoolQueue
  import opened PushMachine
  import opened PushInvariant

  // ---------- No silent loss ----------

  /** Everything still inside the agent. */
  function Inside(s: State): seq<nat> {
    Pipeline(s) + Held(s)
  }

  lemma InsideDistinct(s: State)
    requires InOrder(s) && HeldApart(s)
    ensures NoDuplicates(Inside(s))
  {
    var all := Inside(s);
    forall i, j | 0 <= i < j < |all| ensures all[i] != all[j] {
      assert all[i] == Pipeline(s)[i];
      if j < |Pipeline(s)| {
        assert all[j] == Pipeline(s)[j];
      } else {
        assert all[j] == Held(s)[j - |Pipeline(s)|] && all[j] in Held(s);
        assert all[i] in Pipeline(s);
      }
    }
  }

  lemma Conservation(s: State)
    requires Accounted(s) && NoDuplicates(Inside(s))
    ensures |Inside(s)| + |s.fate| == s.produced
  {
    var inside := set x | x in Inside(s);
    DistinctCount(Inside(s));
    BelowCount(s.produced);
    forall i: nat ensures i in inside + s.fate.Keys <==> i in Below(s.produced) {
      assert i in Inside(s) <==> i in Pipeline(s) || i in Held(s);
    }
    assert inside + s.fate.Keys == Below(s.produced);
    assert inside !! s.fate.Keys;
    assert |inside + s.fate.Keys| == |inside| + |s.fate.Keys|;
  }

  /**
    No silent loss: the places a snapshot can be in are pairwise disjoint, every snapshot
    ever produced is in one of them or has exactly one recorded fate, and a snapshot
    counted as delivered was received by the hub.
   */
  lemma NoSilentLoss(c: Config, steps: seq<Step>)
    ensures var s := Exec(c, steps);
      && NoDuplicates(Inside(s))
      && (forall i: nat :: i < s.produced <==> i in Inside(s) || i in s.fate)
      && (forall i | i in s.fate :: i !in Inside(s))
      && (forall i | i in s.fate && s.fate[i] == Delivered :: HubHas(s, i))
      && |Inside(s)| + |s.fate| == s.produced
  {
    var s := Exec(c, steps);
    RunInv(c, steps);
    InsideDistinct(s);
    Conservation(s);
  }

  /** What must have happened for snapshot i to get fate f in the step from s to s'. */
  ghost predicate Caused(c: Config, s: State, step: Step, s': State, i: nat, f: Fate) {
    match f
    case Delivered => HubHas(s', i) && (step == Attempt(Accepted) || step == Delete(false))
    case Rejected => step == Attempt(Refused) && s.worker.Flushing? && s.worker.item == i
    case TrimmedOldest =>
      && step == Spill(Stored) && c.spoolEnabled
      && |s'.spool.rows| == c.maxItems
      && (forall r | r in s'.spool.rows :: i < r.item)
    case PutFailed => step == Spill(InsertFails) && c.spoolEnabled && Hand(s) == [i]
    case SpoolDisabled => step.Spill? && !c.spoolEnabled && Hand(s) == [i]
    case LostAtStop => step == Restart || (step == Abandon && s.stopping)
  }

  lemma ItemOfRow(rows: seq<Row>, r: Row)
    requires r in rows
    ensures r.item in Items(rows)
  {
    var i :| 0 <= i < |rows| && rows[i] == r;
    assert Items(rows)[i] == r.item;
  }

  lemma TrimCause(c: Config, s: State, i: nat)
    requires InOrder(s) && s.producer.Spilling? && c.spoolEnabled
    requires i !in s.fate && i in ApplySpill(c, s, Stored).fate
    ensures Caused(c, s, Spill(Stored), ApplySpill(c, s, Stored), i, TrimmedOldest)
  {
    var s' := ApplySpill(c, s, Stored);
    var gone := Items(TrimmedRows(c, s));
    SpillTrimmedShape(c, s);
    assert i in gone;
    var a :| 0 <= a < |gone| && gone[a] == i;
    forall r | r in s'.spool.rows ensures i < r.item {
      ItemOfRow(s'.spool.rows, r);
      var b :| 0 <= b < |Items(s'.spool.rows)| && Items(s'.spool.rows)[b] == r.item;
      assert Pipeline(s')[b] == r.item;
      assert Pipeline(s)[a] == i && Pipeline(s)[|gone| + b] == r.item;
    }
  }

  lemma DeleteCause(c: Config, s: State, i: nat)
    requires Inv(c, s) && s.worker.Deleting?
    requires i !in s.fate && i in ApplyDelete(s, false).fate
    ensures ApplyDelete(s, false).fate[i] == Delivered && HubHas(ApplyDelete(s, false), i)
  {
    var s' := ApplyDelete(s, false);
    DeleteShape(s, s');
    assert i == s.worker.row.item;
    HubKeeps(s, s', i);
  }

  lemma AttemptCause(c: Config, s: State, reply: Reply, i: nat)
    requires i !in s.fate && i in ApplyAttempt(c, s, reply).fate
    ensures var s' := ApplyAttempt(c, s, reply); Caused(c, s, Attempt(reply), s', i, s'.fate[i])
  {
    var s' := ApplyAttempt(c, s, reply);
    if reply.Accepted? {
      assert s'.received[|s.received|].item == i;
    }
  }

  lemma SpillCause(c: Config, s: State, outcome: PutOutcome, i: nat)
    requires InOrder(s) && i !in s.fate && i in ApplySpill(c, s, outcome).fate
    ensures var s' := ApplySpill(c, s, outcome); Caused(c, s, Spill(outcome), s', i, s'.fate[i])
  {
    if c.spoolEnabled && outcome.Stored? {
      TrimCause(c, s, i);
      SpillTrimmedShape(c, s);
    }
  }

  /** A fate is given once, never changed, and only by the event it names. */
  lemma FateHasCause(c: Config, steps: seq<Step>, step: Step, i: nat)
    requires i in Apply(c, Exec(c, steps), step).fate
    ensures var s, s' := Exec(c, steps), Apply(c, Exec(c, steps), step);
      if i in s.fate then s'.fate[i] == s.fate[i] else Caused(c, s, step, s', i, s'.fate[i])
  {
    var s := Exec(c, steps);
    RunInv(c, steps);
    if i in s.fate {
      FatesAreFinal(c, s, step, i);
    } else {
      NewFateCaused(c, s, step, i);
    }
  }

  lemma NewFateCaused(c: Config, s: State, step: Step, i: nat)
    requires Inv(c, s) && i !in s.fate && i in Apply(c, s, step).fate
    ensures var s' := Apply(c, s, step); Caused(c, s, step, s', i, s'.fate[i])
  {
    match step
    case Spill(outcome) => SpillCause(c, s, outcome, i);
    case Delete(fails) => DeleteCause(c, s, i);
    case Attempt(reply) => AttemptCause(c, s, reply, i);
    case _ =>
  }

  lemma FatesAreFinal(c: Config, s: State, step: Step, i: nat)
    requires Inv(c, s) && i in s.fate
    ensures i in Apply(c, s, step).fate && Apply(c, s, step).fate[i] == s.fate[i]
  {
    assert i !in Pipeline(s) && i !in Held(s);
    if step.Delete? {
      DeleteIsFinal(s, step.fails, i);
    } else {
      FinalOutside(c, s, step, i);
    }
  }

  lemma DeleteIsFinal(s: State, fails: bool, i: nat)
    requires SpoolSafe(s) && i in s.fate && i !in Pipeline(s)
    ensures i in ApplyDelete(s, fails).fate && ApplyDelete(s, fails).fate[i] == s.fate[i]
  {
    if s.worker.Deleting? && !fails {
      DeleteShape(s, ApplyDelete(s, false));
      if s.spool.rows != [] {
        ItemOfRow(s.spool.rows, s.spool.rows[0]);
      }
    }
  }

  /** Only what is inside the agent gets a fate. */
  lemma FinalOutside(c: Config, s: State, step: Step, i: nat)
    requires i in s.fate && i !in Pipeline(s) && i !in Held(s) && !step.Delete?
    ensures i in Apply(c, s, step).fate && Apply(c, s, step).fate[i] == s.fate[i]
  {
    if step.Spill? && s.producer.Spilling? && c.spoolEnabled {
      SpillTrimmedShape(c, s);
    }
  }

  // ---------- Order ----------

  /** Spool, hand, queue and incoming snapshot are always in strict production order. */
  lemma PipelineInOrder(c: Config, steps: seq<Step>)
    ensures Increasing(Pipeline(Exec(c, steps)))
  {
    RunInv(c, steps);
  }

  /**
    The hub's trace is an interleaving of two non-decreasing sequences, one per path.  This
    rests on an attempt's request being processed before the attempt ends or not at all: a
    request that the hub finishes after its client has given up would be received late.
   */
  lemma TraceInterleavesTwoOrders(c: Config, steps: seq<Step>)
    ensures var received := Exec(c, steps).received;
      && NonDecreasing(Sends(received, FromSpool))
      && NonDecreasing(Sends(received, FromQueue))
      && |Sends(received, FromSpool)| + |Sends(received, FromQueue)| == |received|
  {
    RunInv(c, steps);
    SendsCount(Exec(c, steps).received);
  }

  lemma {:induction false} SendsCount(received: seq<Receipt>)
    ensures |Sends(received, FromSpool)| + |Sends(received, FromQueue)| == |received|
  {
    if received != [] {
      SendsCount(received[..|received| - 1]);
    }
  }

  function ReceivedItems(received: seq<Receipt>): seq<nat> {
    seq(|received|, i requires 0 <= i < |received| => received[i].item)
  }

  lemma {:induction false} OnePathOnly(received: seq<Receipt>)
    requires forall i | 0 <= i < |received| :: received[i].path == FromQueue
    ensures Sends(received, FromQueue) == ReceivedItems(received)
  {
    if received != [] {
      OnePathOnly(received[..|received| - 1]);
    }
  }

  lemma {:induction false} NoSpoolSends(c: Config, steps: seq<Step>)
    requires forall k | 0 <= k <= |steps| :: Exec(c, steps[..k]).spool.rows == []
    ensures var s := Exec(c, steps);
      && WorkerRow(s) == None
      && forall i | 0 <= i < |s.received| :: s.received[i].path == FromQueue
  {
    if steps != [] {
      var front := steps[..|steps| - 1];
      forall k | 0 <= k <= |front| ensures Exec(c, front[..k]).spool.rows == [] {
        assert front[..k] == steps[..k];
      }
      NoSpoolSends(c, front);
      assert steps[..|front|] == front;
    }
  }

  /** A run in which the spool stays empty delivers in production order, up to repeats. */
  lemma FifoWhileSpoolEmpty(c: Config, steps: seq<Step>)
    requires forall k | 0 <= k <= |steps| :: Exec(c, steps[..k]).spool.rows == []
    ensures NonDecreasing(ReceivedItems(Exec(c, steps).received))
  {
    NoSpoolSends(c, steps);
    OnePathOnly(Exec(c, steps).received);
    RunInv(c, steps);
  }

  // ---------- Peek, send, delete ----------

  /**
    A row leaves the spool in two ways only.  Delete removes the very row the worker
    peeked, and the hub has it, whatever puts and trims ran in between; a trim removes
    a row only when maxItems newer ones remain.
   */
  lemma RowRemoval(c: Config, steps: seq<Step>, step: Step, r: Row)
    requires r in Exec(c, steps).spool.rows && r !in Apply(c, Exec(c, steps), step).spool.rows
    ensures var s, s' := Exec(c, steps), Apply(c, Exec(c, steps), step);
      || (step == Delete(false) && WorkerRow(s) == Some(r) && HubHas(s, r.item))
      || (step == Spill(Stored) && |s'.spool.rows| == c.maxItems
          && forall r' | r' in s'.spool.rows :: r.id < r'.id)
  {
    RunInv(c, steps);
    RowLeaves(c, Exec(c, steps), step, r);
  }

  lemma RowTrimmed(c: Config, s: State, outcome: PutOutcome, r: Row)
    requires Ordered(s.spool) && r in s.spool.rows && r !in ApplySpill(c, s, outcome).spool.rows
    ensures var s' := ApplySpill(c, s, outcome);
      outcome == Stored && |s'.spool.rows| == c.maxItems && forall r' | r' in s'.spool.rows :: r.id < r'.id
  {
    PutKeepsNewest(s.spool, s.producer.dropped, c.maxItems, outcome);
    InsertedRows(s.spool, s.producer.dropped);
  }

  lemma RowDeleted(s: State, fails: bool, r: Row)
    requires SpoolSafe(s) && r in s.spool.rows && r !in ApplyDelete(s, fails).spool.rows
    ensures !fails && WorkerRow(s) == Some(r) && HubHas(s, r.item)
  {
    WithoutMembers(s.spool.rows, s.worker.row.id, r);
  }

  lemma RowLeaves(c: Config, s: State, step: Step, r: Row)
    requires SpoolSafe(s) && r in s.spool.rows && r !in Apply(c, s, step).spool.rows
    ensures var s' := Apply(c, s, step);
      || (step == Delete(false) && WorkerRow(s) == Some(r) && HubHas(s, r.item))
      || (step == Spill(Stored) && |s'.spool.rows| == c.maxItems
          && forall r' | r' in s'.spool.rows :: r.id < r'.id)
  {
    match step
    case Spill(outcome) => RowTrimmed(c, s, outcome, r);
    case Delete(fails) => RowDeleted(s, fails, r);
    case _ =>
  }

  lemma StepAddsFreshRows(c: Config, s: State, step: Step, r: Row)
    requires Inv(c, s) && r in Apply(c, s, step).spool.rows
    ensures r in s.spool.rows || r.id == s.spool.nextId
  {
    match step
    case Spill(outcome) =>
      if s.producer.Spilling? {
        PutKeepsNewest(s.spool, s.producer.dropped, c.maxItems, outcome);
      }
    case Delete(fails) =>
      if s.worker.Deleting? {
        WithoutMembers(s.spool.rows, s.worker.row.id, r);
      }
    case _ =>
  }

  lemma StepKeepsNextId(c: Config, s: State, step: Step)
    ensures s.spool.nextId <= Apply(c, s, step).spool.nextId
  {
  }

  lemma {:induction false} NextIdGrows(c: Config, s: State, more: seq<Step>)
    ensures s.spool.nextId <= ExecFrom(c, s, more).spool.nextId
  {
    if more != [] {
      var front := more[..|more| - 1];
      NextIdGrows(c, s, front);
      StepKeepsNextId(c, ExecFrom(c, s, front), more[|more| - 1]);
    }
  }

  /** An id that was already handed out never comes back, not even across restarts. */
  lemma {:induction false} IdsNeverReused(c: Config, s: State, more: seq<Step>, r: Row)
    requires Inv(c, s)
    requires r in ExecFrom(c, s, more).spool.rows && r.id < s.spool.nextId
    ensures r in s.spool.rows
  {
    if more != [] {
      var front := more[..|more| - 1];
      ExecFromKeeps(c, s, front);
      NextIdGrows(c, s, front);
      StepAddsFreshRows(c, ExecFrom(c, s, front), more[|more| - 1], r);
      IdsNeverReused(c, s, front, r);
    }
  }

  // ---------- Enqueue never blocks ----------

  /** How many more of its own steps the producer can need before Enqueue returns. */
  function StepsLeft(s: State): nat {
    match s.producer
    case Idle => 0
    case Sending(_, attempts, _) => if attempts == 0 then 4 else 1
    case Evicting(_, _, _) => 3
    case Spilling(_, _, _, _) => 2
  }

  predicate ProducerStep(step: Step) {
    step.TrySend? || step.TryEvict? || step.Spill?
  }

  /** Among the producer's own steps, the one its control point is at. */
  predicate Enabled(s: State, step: Step) {
    match s.producer
    case Idle => false
    case Sending(_, _, _) => step.TrySend?
    case Evicting(_, _, _) => step.TryEvict?
    case Spilling(_, _, _, _) => step.Spill?
  }

  /**
    Enqueue never blocks: in every interleaving its next step is ready whatever the worker
    does, each of its steps brings it closer to returning, no other step takes it back, and
    it has made at most two send attempts and one spill when it returns.
   */
  lemma EnqueueNeverBlocks(c: Config, steps: seq<Step>, step: Step)
    ensures var s, s' := Exec(c, steps), Apply(c, Exec(c, steps), step);
      && |s.queue| <= c.capacity
      && (!s.producer.Idle? && Enabled(s, step) ==> StepsLeft(s') < StepsLeft(s))
      && (!ProducerStep(step) && !step.Produce? ==> StepsLeft(s') <= StepsLeft(s))
      && (s.producer.Sending? ==> s.producer.attempts <= 1 && s.producer.spills <= 1)
      && (s.producer.Sending? && s.producer.attempts == 1 && step.TrySend? ==> s'.producer.Idle?)
      && (step.Produce? && s.producer.Idle? ==> StepsLeft(s') == 4)
  {
    RunInv(c, steps);
  }

  /** The spool is used for overflow only: the producer evicts only when it has found the queue full. */
  lemma EvictsOnlyWhenFull(c: Config, steps: seq<Step>, step: Step)
    requires !Exec(c, steps).producer.Evicting? && Apply(c, Exec(c, steps), step).producer.Evicting?
    ensures |Exec(c, steps).queue| == c.capacity
  {
    RunInv(c, steps);
  }

  // ---------- Stopping and starting again ----------

  /**
    A stop releases the worker from any wait: a snapshot being flushed is given up, and a row
    being sent stays in the spool.
   */
  lemma StopReleases(c: Config, s: State)
    requires s.worker.Flushing? || s.worker.SendingSpooled?
    ensures var s' := Apply(c, Apply(c, s, Cancel), Abandon);
      && s'.stopping && s'.spool == s.spool && s'.queue == s.queue && s'.received == s.received
      && (s.worker.Flushing? ==>
            s'.worker.Selecting? && s.worker.item in s'.fate && s'.fate[s.worker.item] == LostAtStop)
      && (s.worker.SendingSpooled? ==> s'.fate == s.fate && s'.worker == AfterDrain(s.worker.held))
  {
  }

  /** A restart keeps the spool and nothing else: everything in memory is lost, and the worker starts with a drain. */
  lemma RestartKeepsSpoolOnly(c: Config, s: State, i: nat)
    ensures var s' := Apply(c, s, Restart);
      && s'.spool == s.spool && s'.received == s.received && s'.produced == s.produced
      && s'.queue == [] && s'.producer.Idle? && s'.worker == Peeking(None) && !s'.stopping
      && (i in s.queue || i in Hand(s) || i in Incoming(s) || i in Held(s) ==> i in s'.fate && s'.fate[i] == LostAtStop)
  {
  }

  // ---------- The spool is bounded ----------

  /** How many trims have failed since the last one that worked. */
  function FailedTrims(c: Config, steps: seq<Step>): nat {
    if steps == [] then 0
    else
      var front, step := steps[..|steps| - 1], steps[|steps| - 1];
      var spills := c.spoolEnabled && Exec(c, front).producer.Spilling? && step.Spill?;
      if spills && step.outcome.Stored? then 0
      else FailedTrims(c, front) + (if spills && step.outcome.TrimFails? then 1 else 0)
  }

  lemma SpillBounded(c: Config, s: State, outcome: PutOutcome)
    ensures var rows, rows' := s.spool.rows, ApplySpill(c, s, outcome).spool.rows;
      if !c.spoolEnabled || !s.producer.Spilling? then rows' == rows
      else
        match outcome
        case InsertFails => rows' == rows
        case TrimFails => |rows'| == |rows| + 1
        case Stored => |rows'| <= c.maxItems
  {
    if s.producer.Spilling? {
      PutIsBounded(s.spool, s.producer.dropped, c.maxItems);
    }
  }

  lemma OthersShrink(c: Config, s: State, step: Step)
    requires !step.Spill?
    ensures |Apply(c, s, step).spool.rows| <= |s.spool.rows|
  {
    if step.Delete? && s.worker.Deleting? {
      WithoutShrinks(s.spool.rows, s.worker.row.id);
    }
  }

  /** In every run the spool holds at most maxItems rows and those of the trims that failed since one worked. */
  lemma {:induction false} SpoolBounded(c: Config, steps: seq<Step>)
    ensures |Exec(c, steps).spool.rows| <= c.maxItems + FailedTrims(c, steps)
  {
    if steps != [] {
      var front, step := steps[..|steps| - 1], steps[|steps| - 1];
      SpoolBounded(c, front);
      if step.Spill? {
        SpillBounded(c, Exec(c, front), step.outcome);
      } else {
        OthersShrink(c, Exec(c, front), step);
      }
    }
  }
}
