/**
  Alert dispatch as a step machine: any number of goroutines raise alerts into a bounded
  queue that drops its oldest, and one worker delivers them with silences, a cooldown per
  agent and alert type, and retries.  Queue operations are the atomic steps.
 */
module AlertMachine {
  import opened Sequences
  import opened AlertConfig

  /** The alert types of the rules. */
  const KINDS: set<string> := {
    "CPU_HIGH", "MEMORY_HIGH", "CONTAINER_EXITED", "CONTAINER_UNHEALTHY", "AGENT_STALE", "DISK_HIGH" }

  datatype Event = Event(id: nat, producer: nat, agent: string, kind: string)

  /**
    Where a goroutine is in `enqueue`: before its first send, after finding the queue full,
    or before its second send, when `mark` events had been inserted before it made room.
   */
  datatype Sender = First(event: Event) | Dropping(event: Event) | Second(event: Event, mark: nat)

  /** Where the worker is in `deliver`; the cooldown is the one read when the attempts began. */
  datatype Job =
    | Free
    | Fetched(event: Event)
    | Passed(event: Event)
    | Trying(event: Event, started: int, cooldown: int, attempts: nat)

  datatype Fate = Silenced | CooledDown | Sent | Failed | DroppedOldest | GivenUp

  /** Where an alert is, from being raised to its fate. */
  datatype Place = InHand(p: nat) | Queued | AtWorker | Done(fate: Fate)

  datatype Success = Success(event: Event, started: int, cooldown: int, recorded: int)

  /**
    The engine's state, and for stating what must hold: every event inserted into the
    queue, how many have left it, the positions the worker took, where every alert is, and the alerts that failed
    and succeeded.
   */
  datatype State = State(
    queue: seq<Event>,
    senders: map<nat, Sender>,
    job: Job,
    lastSent: map<string, int>,
    pending: seq<Event>,
    minutes: Option<int>,
    clock: int,
    raised: nat,
    inserted: seq<Event>,
    removed: nat,
    taken: seq<nat>,
    places: map<nat, Place>,
    failed: seq<Event>,
    sent: seq<Success>)

  /** Capacity of the queue, attempts per alert, and size of the window of failed alerts. */
  const QUEUE := 64
  const RETRIES := 3
  const PENDING := 100

  datatype Step =
    | Raise(p: nat, agent: string, kind: string)
    | TrySend(p: nat)
    | DropOldest(p: nat)
    | SendAgain(p: nat)
    | Fetch
    | CheckSilences(silenced: bool)
    | CheckCooldown(now: int)
    | Attempt(ok: bool, now: int)
    | Configure(minutes: int)

  function Init(minutes: Option<int>): State {
    State([], map[], Free, map[], [], minutes, 0, 0, [], 0, [], map[], [], [])
  }

  /** lastSent's key for an agent and alert type. */
  function KeyOf(agent: string, kind: string): string {
    agent + "|" + kind
  }

  /** 10 minutes without a configuration. */
  function CooldownNow(s: State): int {
    match s.minutes case None => 600_000_000_000 case Some(m) => Cooldown(m)
  }

  function At(s: State, e: Event, place: Place): map<nat, Place> {
    s.places[e.id := place]
  }

  function Raised(s: State, p: nat, agent: string, kind: string): State {
    var e := Event(s.raised, p, agent, kind);
    s.(senders := s.senders[p := First(e)], raised := s.raised + 1, places := At(s, e, InHand(p)))
  }

  /** A send into a queue with room. */
  function Inserted(s: State, p: nat, e: Event): State {
    s.(queue := s.queue + [e], senders := s.senders - {p}, inserted := s.inserted + [e], places := At(s, e, Queued))
  }

  function Sending(s: State, p: nat, e: Event): State {
    if |s.queue| < QUEUE then Inserted(s, p, e) else s.(senders := s.senders[p := Dropping(e)])
  }

  function SendingAgain(s: State, p: nat, e: Event): State {
    if |s.queue| < QUEUE then Inserted(s, p, e)
    else s.(senders := s.senders - {p}, places := At(s, e, Done(GivenUp)))
  }

  /** Receives the oldest, if the queue is not empty by now. */
  function MakingRoom(s: State, p: nat, e: Event): State {
    var ready := s.(senders := s.senders[p := Second(e, |s.inserted|)]);
    if s.queue == [] then ready
    else ready.(queue := s.queue[1..], removed := s.removed + 1, places := At(s, s.queue[0], Done(DroppedOldest)))
  }

  function Fetching(s: State): State
    requires s.queue != []
  {
    s.(queue := s.queue[1..],
       job := Fetched(s.queue[0]),
       removed := s.removed + 1,
       taken := s.taken + [s.removed],
       places := At(s, s.queue[0], AtWorker))
  }

  function Ended(s: State, e: Event, fate: Fate): State {
    s.(job := Free, places := At(s, e, Done(fate)))
  }

  predicate CoolingDown(s: State, e: Event, now: int) {
    var k := KeyOf(e.agent, e.kind);
    k in s.lastSent && now - s.lastSent[k] < CooldownNow(s)
  }

  function Cooling(s: State, e: Event, now: int): State {
    var s' := s.(clock := now);
    if CoolingDown(s, e, now) then Ended(s', e, CooledDown) else s'.(job := Trying(e, now, CooldownNow(s), 0))
  }

  /** recordPending: the window of failed alerts. */
  function Window(pending: seq<Event>, e: Event): seq<Event> {
    (if |pending| >= PENDING then pending[1..] else pending) + [e]
  }

  function Succeeded(s: State, now: int): State
    requires s.job.Trying?
  {
    var e := s.job.event;
    Ended(s, e, Sent).(
      lastSent := s.lastSent[KeyOf(e.agent, e.kind) := now],
      clock := now,
      sent := s.sent + [Success(e, s.job.started, s.job.cooldown, now)])
  }

  function FailedOnce(s: State, now: int): State
    requires s.job.Trying?
  {
    var e := s.job.event;
    if s.job.attempts + 1 < RETRIES then s.(job := s.job.(attempts := s.job.attempts + 1), clock := now)
    else Ended(s, e, Failed).(pending := Window(s.pending, e), clock := now, failed := s.failed + [e])
  }

  /** A step that the state does not allow, or that reads the clock before its last reading, is no step. */
  predicate Enabled(s: State, step: Step) {
    match step
    case Raise(p, _, kind) => p !in s.senders && kind in KINDS
    case TrySend(p) => p in s.senders && s.senders[p].First?
    case DropOldest(p) => p in s.senders && s.senders[p].Dropping?
    case SendAgain(p) => p in s.senders && s.senders[p].Second?
    case Fetch => s.job.Free? && s.queue != []
    case CheckSilences(_) => s.job.Fetched?
    case CheckCooldown(now) => s.job.Passed? && s.clock <= now
    case Attempt(_, now) => s.job.Trying? && s.clock <= now
    case Configure(_) => s.minutes.Some?
  }

  function Apply(s: State, step: Step): State {
    if !Enabled(s, step) then s
    else
      match step
      case Raise(p, agent, kind) => Raised(s, p, agent, kind)
      case TrySend(p) => Sending(s, p, s.senders[p].event)
      case DropOldest(p) => MakingRoom(s, p, s.senders[p].event)
      case SendAgain(p) => SendingAgain(s, p, s.senders[p].event)
      case Fetch => Fetching(s)
      case CheckSilences(silenced) =>
        if silenced then Ended(s, s.job.event, Silenced) else s.(job := Passed(s.job.event))
      case CheckCooldown(now) => Cooling(s, s.job.event, now)
      case Attempt(ok, now) => if ok then Succeeded(s, now) else FailedOnce(s, now)
      case Configure(minutes) => s.(minutes := Some(PositiveInt(minutes, 10)))
  }

  function Exec(minutes: Option<int>, steps: seq<Step>): State {
    if steps == [] then Init(minutes) else Apply(Exec(minutes, steps[..|steps| - 1]), steps[|steps| - 1])
  }
}
