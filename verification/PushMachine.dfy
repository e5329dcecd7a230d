/**
  The agent's delivery protocol as interleaved atomic steps: one producer goroutine
  (Enqueue), one worker goroutine (Run), the hub's replies, the spool's failures, and
  process stops.  A step that is not enabled leaves the state alone, so every sequence
  of steps is a run.  Snapshots are named by their production number.
 */
module PushMachine {
  import opened Sequences
  import opened SpoolQueue

  datatype RawConfig = RawConfig(capacity: nat, maxRetries: nat, spoolEnabled: bool, maxItems: nat)

  /** The options after NewClient and OpenSpool have put defaults in. */
  type Config = c: RawConfig | c.capacity >= 1 && c.maxRetries >= 1 && c.maxItems >= 1
    witness RawConfig(32, 3, true, 2880)

  /** Where the producer goroutine stands inside Enqueue. */
  datatype Producer =
    | Idle
    | Sending(item: nat, attempts: nat, spills: nat)
    | Evicting(item: nat, attempts: nat, spills: nat)
    | Spilling(item: nat, dropped: nat, attempts: nat, spills: nat)

  /** Where the worker goroutine stands; `held` is a snapshot taken from the queue, waiting for the spool drain. */
  datatype Worker =
    | Selecting
    | Peeking(held: Option<nat>)
    | SendingSpooled(row: Row, attempt: nat, held: Option<nat>)
    | Deleting(row: Row, held: Option<nat>)
    | Flushing(item: nat, attempt: nat)

  datatype Path = FromSpool | FromQueue

  /** One request the hub has processed. */
  datatype Receipt = Receipt(item: nat, path: Path)

  datatype Reply = Accepted | AcceptedReplyLost | Unreachable | Refused

  /** How a snapshot left the agent. */
  datatype Fate = Delivered | Rejected | TrimmedOldest | PutFailed | SpoolDisabled | LostAtStop

  datatype State = State(
    produced: nat,
    queue: seq<nat>,
    spool: Table,
    producer: Producer,
    worker: Worker,
    stopping: bool,
    received: seq<Receipt>,
    fate: map<nat, Fate>)

  datatype Step =
    | Produce
    | TrySend
    | TryEvict
    | Spill(outcome: PutOutcome)
    | Tick
    | Take
    | Peek(fails: bool)
    | Attempt(reply: Reply)
    | Delete(fails: bool)
    | Cancel
    | Abandon
    | Restart

  const INIT := State(0, [], Table([], 1), Idle, Peeking(None), false, [], map[])

  /** The snapshot evicted from the queue and not yet in the spool. */
  function Hand(s: State): seq<nat> {
    if s.producer.Spilling? then [s.producer.dropped] else []
  }

  /** The snapshot Enqueue was called with, while it is not yet in the queue. */
  function Incoming(s: State): seq<nat> {
    if s.producer.Idle? then [] else [s.producer.item]
  }

  /** Everything between production and the worker, oldest first. */
  function Pipeline(s: State): seq<nat> {
    Items(s.spool.rows) + Hand(s) + s.queue + Incoming(s)
  }

  /** The snapshot the worker took from the queue. */
  function WorkerItem(s: State): Option<nat> {
    match s.worker
    case Selecting => None
    case Peeking(held) => held
    case SendingSpooled(_, _, held) => held
    case Deleting(_, held) => held
    case Flushing(item, _) => Some(item)
  }

  function Held(s: State): seq<nat> {
    match WorkerItem(s) case None => [] case Some(i) => [i]
  }

  /** The spool row the worker is delivering. */
  function WorkerRow(s: State): Option<Row> {
    match s.worker
    case SendingSpooled(row, _, _) => Some(row)
    case Deleting(row, _) => Some(row)
    case _ => None
  }

  /** drainSpoolUntilBlocked returns: to the select loop, or to flush the held snapshot. */
  function AfterDrain(held: Option<nat>): Worker {
    match held case None => Selecting case Some(i) => Flushing(i, 0)
  }

  function Marked(fate: map<nat, Fate>, items: seq<nat>, f: Fate): map<nat, Fate> {
    fate + (map i | i in items :: f)
  }

  function RemovedById(rows: seq<Row>, id: nat): seq<nat> {
    if rows == [] then []
    else (if rows[0].id == id then [rows[0].item] else []) + RemovedById(rows[1..], id)
  }

  function ApplySpill(c: Config, s: State, outcome: PutOutcome): State {
    var p := s.producer;
    if !p.Spilling? then s
    else
      var next := Sending(p.item, p.attempts, p.spills + 1);
      if !c.spoolEnabled then
        s.(producer := next, fate := Marked(s.fate, [p.dropped], SpoolDisabled))
      else
        var table := AfterPut(s.spool, p.dropped, c.maxItems, outcome);
        match outcome
        case InsertFails => s.(producer := next, fate := Marked(s.fate, [p.dropped], PutFailed))
        case TrimFails => s.(producer := next, spool := table)
        case Stored =>
          var full := Insert(s.spool, p.dropped);
          var trimmed := Items(full.rows[..Overflow(full, c.maxItems)]);
          s.(producer := next, spool := table, fate := Marked(s.fate, trimmed, TrimmedOldest))
  }

  function ApplyTake(s: State): State {
    if s.worker.Selecting? && s.queue != []
    then s.(queue := s.queue[1..], worker := Peeking(Some(s.queue[0])))
    else s
  }

  function ApplyPeek(c: Config, s: State, fails: bool): State {
    if !s.worker.Peeking? then s
    else if !c.spoolEnabled || fails || s.spool.rows == [] then s.(worker := AfterDrain(s.worker.held))
    else s.(worker := SendingSpooled(s.spool.rows[0], 0, s.worker.held))
  }

  /** One attempt of sendBatch, and what its caller does when that was the last attempt. */
  function ApplyAttempt(c: Config, s: State, reply: Reply): State {
    var reached := reply.Accepted? || reply.AcceptedReplyLost?;
    match s.worker
    case SendingSpooled(row, k, held) =>
      var s' := if reached then s.(received := s.received + [Receipt(row.item, FromSpool)]) else s;
      if reply.Accepted? then s'.(worker := Deleting(row, held))
      else if reply.Refused? || k + 1 >= c.maxRetries then s'.(worker := AfterDrain(held))
      else s'.(worker := SendingSpooled(row, k + 1, held))
    case Flushing(item, k) =>
      var s' := if reached then s.(received := s.received + [Receipt(item, FromQueue)]) else s;
      if reply.Accepted? then s'.(worker := Selecting, fate := Marked(s.fate, [item], Delivered))
      else if reply.Refused? then s'.(worker := Selecting, fate := Marked(s.fate, [item], Rejected))
      else s'.(worker := Flushing(item, if k + 1 >= c.maxRetries then 0 else k + 1))
    case _ => s
  }

  function ApplyDelete(s: State, fails: bool): State {
    match s.worker
    case Deleting(row, held) =>
      if fails || row.id == 0 then s.(worker := Peeking(held))
      else
        s.(worker := Peeking(held),
           spool := s.spool.(rows := Without(s.spool.rows, row.id)),
           fate := Marked(s.fate, RemovedById(s.spool.rows, row.id), Delivered))
    case _ => s
  }

  /** The context is cancelled: a pending wait ends, and a snapshot being flushed is given up. */
  function ApplyAbandon(s: State): State {
    if !s.stopping then s
    else
      match s.worker
      case SendingSpooled(_, _, held) => s.(worker := AfterDrain(held))
      case Flushing(item, _) => s.(worker := Selecting, fate := Marked(s.fate, [item], LostAtStop))
      case _ => s
  }

  /** The process ends, in whatever state it is, and a new one opens the same spool. */
  function ApplyRestart(s: State): State {
    State(s.produced, [], s.spool, Idle, Peeking(None), false, s.received,
          Marked(s.fate, Hand(s) + s.queue + Incoming(s) + Held(s), LostAtStop))
  }

  function Apply(c: Config, s: State, step: Step): State {
    match step
    case Produce =>
      if s.producer.Idle? then s.(producer := Sending(s.produced, 0, 0), produced := s.produced + 1) else s
    case TrySend =>
      if !s.producer.Sending? then s
      else if |s.queue| < c.capacity then s.(queue := s.queue + [s.producer.item], producer := Idle)
      else s.(producer := Evicting(s.producer.item, s.producer.attempts + 1, s.producer.spills))
    case TryEvict =>
      if !s.producer.Evicting? then s
      else if s.queue == [] then s.(producer := Sending(s.producer.item, s.producer.attempts, s.producer.spills))
      else s.(queue := s.queue[1..],
              producer := Spilling(s.producer.item, s.queue[0], s.producer.attempts, s.producer.spills))
    case Spill(outcome) => ApplySpill(c, s, outcome)
    case Tick => if s.worker.Selecting? then s.(worker := Peeking(None)) else s
    case Take => ApplyTake(s)
    case Peek(fails) => ApplyPeek(c, s, fails)
    case Attempt(reply) => ApplyAttempt(c, s, reply)
    case Delete(fails) => ApplyDelete(s, fails)
    case Cancel => s.(stopping := true)
    case Abandon => ApplyAbandon(s)
    case Restart => ApplyRestart(s)
  }

  /** The state a run ends in. */
  function ExecFrom(c: Config, s: State, steps: seq<Step>): State {
    if steps == [] then s else Apply(c, ExecFrom(c, s, steps[..|steps| - 1]), steps[|steps| - 1])
  }

  function Exec(c: Config, steps: seq<Step>): State {
    ExecFrom(c, INIT, steps)
  }

  function Sends(received: seq<Receipt>, path: Path): seq<nat> {
    if received == [] then []
    else
      var r := received[|received| - 1];
      Sends(received[..|received| - 1], path) + (if r.path == path then [r.item] else [])
  }

  ghost predicate HubHas(s: State, item: nat) {
    exists i | 0 <= i < |s.received| :: s.received[i].item == item
  }
}
