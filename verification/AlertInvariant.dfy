/** What every step of alert dispatch keeps. */
module AlertInvariant {
  import opened Sequences
  import opened AlertMachine

  // ---------- The queue ----------

  /** First in, first out: what has not left the queue is the end of what was inserted. */
  ghost predicate Fifo(s: State) {
    && |s.queue| <= QUEUE
    && s.removed + |s.queue| == |s.inserted|
    && (forall i | 0 <= i < |s.queue| :: s.queue[i] == s.inserted[s.removed + i])
    && Increasing(s.taken)
    && (forall t | t in s.taken :: t < s.removed)
  }

  /** Since making room, a sender has inserted nothing, and the queue has only filled up through others. */
  ghost predicate Rivals(s: State) {
    forall p | p in s.senders && s.senders[p].Second? ::
      var mark := s.senders[p].mark;
      && mark <= |s.inserted|
      && |s.queue| < QUEUE + (|s.inserted| - mark)
      && (forall i | mark <= i < |s.inserted| :: s.inserted[i].producer != p)
  }

  ghost predicate OwnEvents(s: State) {
    forall p | p in s.senders :: s.senders[p].event.producer == p
  }

  // ---------- One place each ----------

  /** The senders' alerts, and no others, are in hand. */
  ghost predicate HandsPlaced(places: map<nat, Place>, senders: map<nat, Sender>) {
    && (forall p | p in senders :: IsAt(places, senders[p].event.id, InHand(p)))
    && (forall id | id in places && places[id].InHand? ::
          places[id].p in senders && senders[places[id].p].event.id == id)
  }

  /** The queue holds the queued alerts, each once. */
  ghost predicate QueuePlaced(places: map<nat, Place>, queue: seq<Event>) {
    && (forall i | 0 <= i < |queue| :: IsAt(places, queue[i].id, Queued))
    && (forall id | id in places && places[id] == Queued :: InQueue(queue, id))
    && (forall i, j | 0 <= i < j < |queue| :: queue[i].id != queue[j].id)
  }

  ghost predicate JobPlaced(places: map<nat, Place>, job: Job) {
    && (!job.Free? ==> IsAt(places, job.event.id, AtWorker))
    && (forall id | id in places && places[id] == AtWorker :: !job.Free? && job.event.id == id)
  }

  ghost predicate Placed(s: State) {
    && (forall id: nat :: id in s.places <==> id < s.raised)
    && HandsPlaced(s.places, s.senders) && QueuePlaced(s.places, s.queue) && JobPlaced(s.places, s.job)
  }

  predicate IsAt(places: map<nat, Place>, id: nat, place: Place) {
    id in places && places[id] == place
  }

  ghost predicate InQueue(queue: seq<Event>, id: nat) {
    exists i :: 0 <= i < |queue| && queue[i].id == id
  }

  // ---------- Failures and successes ----------

  /** A list has exactly the alerts of one fate, each once. */
  ghost predicate Lists(places: map<nat, Place>, events: seq<Event>, fate: Fate) {
    && (forall i | 0 <= i < |events| :: IsAt(places, events[i].id, Done(fate)))
    && (forall id | id in places && places[id] == Done(fate) :: InQueue(events, id))
    && (forall i, j | 0 <= i < j < |events| :: events[i].id != events[j].id)
  }

  function Delivered(sent: seq<Success>): (events: seq<Event>)
    ensures |events| == |sent| && forall i | 0 <= i < |sent| :: events[i] == sent[i].event
  {
    seq(|sent|, i requires 0 <= i < |sent| => sent[i].event)
  }

  ghost predicate FatesListed(s: State) {
    && s.pending == LastN(s.failed, PENDING)
    && Lists(s.places, s.failed, Failed)
    && Lists(s.places, Delivered(s.sent), Sent)
  }

  // ---------- The cooldown ----------

  predicate SamePair(a: Event, b: Event) {
    a.agent == b.agent && a.kind == b.kind
  }

  /** When the last success for an agent and alert type was recorded. */
  function LastSuccess(sent: seq<Success>, agent: string, kind: string): Option<int> {
    if sent == [] then None
    else
      var last := sent[|sent| - 1];
      if last.event.agent == agent && last.event.kind == kind then Some(last.recorded)
      else LastSuccess(sent[..|sent| - 1], agent, kind)
  }

  function Lookup(lastSent: map<string, int>, key: string): Option<int> {
    if key in lastSent then Some(lastSent[key]) else None
  }

  ghost predicate KnownKinds(s: State) {
    && SenderKinds(s.senders) && QueueKinds(s.queue)
    && (!s.job.Free? ==> s.job.event.kind in KINDS)
  }

  /** The dedup table holds, pair by pair, when the last success was recorded. */
  ghost predicate TableExact(s: State) {
    forall agent, kind | kind in KINDS :: Lookup(s.lastSent, KeyOf(agent, kind)) == LastSuccess(s.sent, agent, kind)
  }

  ghost predicate RecordedInOrder(s: State) {
    && (forall i, j | 0 <= i < j < |s.sent| :: s.sent[i].recorded <= s.sent[j].recorded)
    && (forall i | 0 <= i < |s.sent| :: s.sent[i].recorded <= s.clock)
  }

  /** From one success of a pair to the start of the next at least the cooldown passes. */
  ghost predicate Spaced(sent: seq<Success>) {
    forall i, j | 0 <= i < j < |sent| && SamePair(sent[i].event, sent[j].event) ::
      sent[j].started - sent[i].recorded >= sent[j].cooldown
  }

  /** Attempts are under way only after the cooldown. */
  ghost predicate TryingAfterCooldown(s: State) {
    s.job.Trying? ==>
      forall i | 0 <= i < |s.sent| && SamePair(s.sent[i].event, s.job.event) ::
        s.job.started - s.sent[i].recorded >= s.job.cooldown
  }

  ghost predicate CooldownKept(s: State) {
    TableExact(s) && RecordedInOrder(s) && Spaced(s.sent) && TryingAfterCooldown(s)
  }

  ghost predicate Inv(s: State) {
    && Fifo(s) && Rivals(s) && OwnEvents(s)
    && Placed(s) && FatesListed(s)
    && KnownKinds(s) && CooldownKept(s)
    && (s.job.Trying? ==> s.job.attempts < RETRIES)
  }

  // ---------- The joined key ----------

  /** No alert type contains a bar, so the joined key tells pairs apart whatever the agent is called. */
  lemma KindsHaveNoBar(kind: string)
    requires kind in KINDS
    ensures '|' !in kind
  {
  }

  lemma KeySeparatesPairs(agent: string, kind: string, agent': string, kind': string)
    requires kind in KINDS && kind' in KINDS
    ensures KeyOf(agent, kind) == KeyOf(agent', kind') <==> agent == agent' && kind == kind'
  {
    var k, k' := KeyOf(agent, kind), KeyOf(agent', kind');
    if k == k' {
      KindsHaveNoBar(kind);
      KindsHaveNoBar(kind');
      BarsAlign(agent, kind, agent', kind');
    }
  }

  /** Two joined keys that are equal have their last bar at the same place. */
  lemma BarsAlign(a: string, b: string, a': string, b': string)
    requires a + "|" + b == a' + "|" + b' && '|' !in b && '|' !in b'
    ensures a == a' && b == b'
  {
    var k := a + "|" + b;
    assert k[|a|] == '|' && k[|a'|] == '|';
    forall i | |a| < i < |k| ensures k[i] != '|' {
      AfterBar(a, b, i);
    }
    forall i | |a'| < i < |k| ensures k[i] != '|' {
      AfterBar(a', b', i);
    }
    assert a == k[..|a|] && a' == k[..|a|];
    assert b == k[|a| + 1..] && b' == k[|a| + 1..];
  }

  lemma AfterBar(a: string, b: string, i: nat)
    requires |a| < i < |a| + 1 + |b|
    ensures (a + "|" + b)[i] in b
  {
  }

  // ---------- The queue, step by step ----------

  ghost predicate QueueInv(s: State) {
    Fifo(s) && Rivals(s) && OwnEvents(s)
  }

  lemma InsertedKeepsQueue(s: State, p: nat)
    requires QueueInv(s) && p in s.senders && |s.queue| < QUEUE
    ensures QueueInv(Inserted(s, p, s.senders[p].event))
  {
  }

  lemma MakingRoomKeepsQueue(s: State, p: nat)
    requires QueueInv(s) && p in s.senders
    ensures QueueInv(MakingRoom(s, p, s.senders[p].event))
  {
  }

  lemma FetchingKeepsQueue(s: State)
    requires QueueInv(s) && s.queue != []
    ensures QueueInv(Fetching(s))
  {
    AppendLarger(s.taken, s.removed);
  }

  lemma SendersKeepQueue(s: State, s': State)
    requires QueueInv(s)
    requires s'.queue == s.queue && s'.inserted == s.inserted && s'.removed == s.removed && s'.taken == s.taken
    requires forall p | p in s'.senders ::
      if s'.senders[p].Second? then p in s.senders && s'.senders[p] == s.senders[p]
      else s'.senders[p].event.producer == p
    ensures QueueInv(s')
  {
  }

  lemma QueueKeeps(s: State, step: Step)
    requires QueueInv(s)
    ensures QueueInv(Apply(s, step))
  {
    if Enabled(s, step) {
      match step
      case TrySend(p) =>
        if |s.queue| < QUEUE { InsertedKeepsQueue(s, p); } else { SendersKeepQueue(s, Apply(s, step)); }
      case SendAgain(p) =>
        if |s.queue| < QUEUE { InsertedKeepsQueue(s, p); } else { SendersKeepQueue(s, Apply(s, step)); }
      case DropOldest(p) => MakingRoomKeepsQueue(s, p);
      case Fetch => FetchingKeepsQueue(s);
      case _ => SendersKeepQueue(s, Apply(s, step));
    }
  }

  // ---------- Places, step by step ----------

  /** Moving an alert that is in no hand leaves the hands alone. */
  lemma HandsAlone(places: map<nat, Place>, senders: map<nat, Sender>, id: nat, place: Place)
    requires HandsPlaced(places, senders) && !place.InHand? && (id in places ==> !places[id].InHand?)
    ensures HandsPlaced(places[id := place], senders)
  {
  }

  lemma HandEmpties(places: map<nat, Place>, senders: map<nat, Sender>, p: nat, place: Place)
    requires HandsPlaced(places, senders) && p in senders && !place.InHand?
    ensures HandsPlaced(places[senders[p].event.id := place], senders - {p})
  {
  }

  lemma HandFills(places: map<nat, Place>, senders: map<nat, Sender>, p: nat, sender: Sender)
    requires HandsPlaced(places, senders) && p !in senders && sender.event.id !in places
    ensures HandsPlaced(places[sender.event.id := InHand(p)], senders[p := sender])
  {
  }

  lemma HandHolds(places: map<nat, Place>, senders: map<nat, Sender>, p: nat, sender: Sender)
    requires HandsPlaced(places, senders) && p in senders && senders[p].event == sender.event
    ensures HandsPlaced(places, senders[p := sender])
  {
  }

  lemma QueueAlone(places: map<nat, Place>, queue: seq<Event>, id: nat, place: Place)
    requires QueuePlaced(places, queue) && place != Queued && !IsAt(places, id, Queued)
    ensures QueuePlaced(places[id := place], queue)
  {
  }

  lemma QueueFills(places: map<nat, Place>, queue: seq<Event>, e: Event)
    requires QueuePlaced(places, queue) && !IsAt(places, e.id, Queued)
    ensures QueuePlaced(places[e.id := Queued], queue + [e])
  {
    var places', queue' := places[e.id := Queued], queue + [e];
    forall id | id in places' && places'[id] == Queued ensures InQueue(queue', id) {
      if id == e.id {
        assert queue'[|queue|].id == id;
      } else {
        var i :| 0 <= i < |queue| && queue[i].id == id;
        assert queue'[i].id == id;
      }
    }
  }

  lemma QueueHeadLeaves(places: map<nat, Place>, queue: seq<Event>, place: Place)
    requires QueuePlaced(places, queue) && queue != [] && place != Queued
    ensures QueuePlaced(places[queue[0].id := place], queue[1..])
  {
  }

  lemma JobAlone(places: map<nat, Place>, job: Job, id: nat, place: Place)
    requires JobPlaced(places, job) && place != AtWorker && !IsAt(places, id, AtWorker)
    ensures JobPlaced(places[id := place], job)
  {
  }

  lemma RaisedKeepsPlaces(s: State, p: nat, agent: string, kind: string)
    requires Placed(s) && p !in s.senders
    ensures Placed(Raised(s, p, agent, kind))
  {
    HandFills(s.places, s.senders, p, First(Event(s.raised, p, agent, kind)));
    QueueAlone(s.places, s.queue, s.raised, InHand(p));
    JobAlone(s.places, s.job, s.raised, InHand(p));
  }

  lemma InsertedKeepsPlaces(s: State, p: nat)
    requires Placed(s) && p in s.senders
    ensures Placed(Inserted(s, p, s.senders[p].event))
  {
    var e := s.senders[p].event;
    HandEmpties(s.places, s.senders, p, Queued);
    QueueFills(s.places, s.queue, e);
    JobAlone(s.places, s.job, e.id, Queued);
  }

  lemma GivingUpKeepsPlaces(s: State, p: nat)
    requires Placed(s) && p in s.senders
    ensures Placed(s.(senders := s.senders - {p}, places := At(s, s.senders[p].event, Done(GivenUp))))
  {
  }

  lemma MakingRoomKeepsPlaces(s: State, p: nat)
    requires Placed(s) && p in s.senders
    ensures Placed(MakingRoom(s, p, s.senders[p].event))
  {
    var sender := Second(s.senders[p].event, |s.inserted|);
    if s.queue == [] {
      HandHolds(s.places, s.senders, p, sender);
    } else {
      var id, place := s.queue[0].id, Done(DroppedOldest);
      assert IsAt(s.places, id, Queued);
      HandsAlone(s.places, s.senders, id, place);
      HandHolds(s.places[id := place], s.senders, p, sender);
      QueueHeadLeaves(s.places, s.queue, place);
      JobAlone(s.places, s.job, id, place);
    }
  }

  lemma FetchingKeepsPlaces(s: State)
    requires Placed(s) && s.job.Free? && s.queue != []
    ensures Placed(Fetching(s))
  {
  }

  lemma EndedKeepsPlaces(s: State, fate: Fate)
    requires Placed(s) && !s.job.Free?
    ensures Placed(Ended(s, s.job.event, fate))
  {
  }

  /** Changes that leave every alert where it is. */
  lemma SamePlaces(s: State, s': State)
    requires Placed(s)
    requires s'.places == s.places && s'.raised == s.raised && s'.queue == s.queue
    requires s'.senders.Keys == s.senders.Keys && forall p | p in s.senders :: s'.senders[p].event == s.senders[p].event
    requires s'.job.Free? == s.job.Free? && (!s.job.Free? ==> s'.job.event == s.job.event)
    ensures Placed(s')
  {
  }

  lemma PlacesKept(s: State, step: Step)
    requires Placed(s)
    ensures Placed(Apply(s, step))
  {
    if Enabled(s, step) {
      match step
      case Raise(p, agent, kind) => RaisedKeepsPlaces(s, p, agent, kind);
      case TrySend(p) =>
        if |s.queue| < QUEUE { InsertedKeepsPlaces(s, p); } else { SamePlaces(s, Apply(s, step)); }
      case DropOldest(p) => MakingRoomKeepsPlaces(s, p);
      case SendAgain(p) =>
        if |s.queue| < QUEUE { InsertedKeepsPlaces(s, p); } else { GivingUpKeepsPlaces(s, p); }
      case Fetch => FetchingKeepsPlaces(s);
      case Configure(_) => SamePlaces(s, Apply(s, step));
      case _ => WorkerKeepsPlaces(s, step);
    }
  }

  predicate WorkerStep(step: Step) {
    step.CheckSilences? || step.CheckCooldown? || step.Attempt?
  }

  /** The worker's steps on one alert either leave it at the worker or give it a fate. */
  lemma WorkerShape(s: State, step: Step)
    requires Enabled(s, step) && WorkerStep(step)
    ensures var s' := Apply(s, step);
      && s'.senders == s.senders && s'.queue == s.queue && s'.raised == s.raised && !s.job.Free?
      && (if s'.job.Free? then exists fate :: s'.places == At(s, s.job.event, Done(fate))
          else s'.places == s.places && s'.job.event == s.job.event)
  {
    var s' := Apply(s, step);
    if s'.job.Free? {
      var fate := s'.places[s.job.event.id].fate;
      assert s'.places == At(s, s.job.event, Done(fate));
    }
  }

  lemma WorkerKeepsPlaces(s: State, step: Step)
    requires Placed(s) && Enabled(s, step) && WorkerStep(step)
    ensures Placed(Apply(s, step))
  {
    var s' := Apply(s, step);
    WorkerShape(s, step);
    if s'.job.Free? {
      var fate :| s'.places == At(s, s.job.event, Done(fate));
      EndedKeepsPlaces(s, fate);
      assert s'.job == Ended(s, s.job.event, fate).job;
    } else {
      SamePlaces(s, s');
    }
  }

  // ---------- Lists of fates, step by step ----------

  lemma ListAlone(places: map<nat, Place>, events: seq<Event>, fate: Fate, id: nat, place: Place)
    requires Lists(places, events, fate) && place != Done(fate) && !IsAt(places, id, Done(fate))
    ensures Lists(places[id := place], events, fate)
  {
  }

  lemma ListGrows(places: map<nat, Place>, events: seq<Event>, fate: Fate, e: Event)
    requires Lists(places, events, fate) && !IsAt(places, e.id, Done(fate))
    ensures Lists(places[e.id := Done(fate)], events + [e], fate)
  {
    var places', events' := places[e.id := Done(fate)], events + [e];
    forall id | id in places' && places'[id] == Done(fate) ensures InQueue(events', id) {
      if id == e.id {
        assert events'[|events|].id == id;
      } else {
        var i :| 0 <= i < |events| && events[i].id == id;
        assert events'[i].id == id;
      }
    }
  }

  /** An alert that has met its fate never moves again. */
  ghost predicate Unfated(places: map<nat, Place>, id: nat) {
    id in places ==> !places[id].Done?
  }

  /** One alert, not yet at its fate, moves to a place that no list is about. */
  ghost predicate QuietMove(places: map<nat, Place>, places': map<nat, Place>, id: nat) {
    && id in places' && places' == places[id := places'[id]]
    && Unfated(places, id) && places'[id] != Done(Failed) && places'[id] != Done(Sent)
  }

  ghost predicate Quiet(s: State, s': State) {
    && s'.failed == s.failed && s'.sent == s.sent && s'.pending == s.pending
    && (s'.places == s.places || exists id :: QuietMove(s.places, s'.places, id))
  }

  lemma SenderStepQuiet(s: State, step: Step)
    requires Placed(s) && Enabled(s, step) && (step.Raise? || step.TrySend? || step.SendAgain?)
    ensures Quiet(s, Apply(s, step))
  {
    var s' := Apply(s, step);
    var id := if step.Raise? then s.raised else s.senders[step.p].event.id;
    if s'.places != s.places {
      assert QuietMove(s.places, s'.places, id);
    }
  }

  lemma QueueStepQuiet(s: State, step: Step)
    requires Placed(s) && Enabled(s, step) && (step.DropOldest? || step.Fetch?)
    ensures Quiet(s, Apply(s, step))
  {
    if s.queue != [] {
      assert QuietMove(s.places, Apply(s, step).places, s.queue[0].id);
    }
  }

  lemma WorkerStepQuiet(s: State, step: Step)
    requires Placed(s) && Enabled(s, step) && (step.CheckSilences? || step.CheckCooldown?)
    ensures Quiet(s, Apply(s, step))
  {
    var s' := Apply(s, step);
    if s'.places != s.places {
      assert QuietMove(s.places, s'.places, s.job.event.id);
    }
  }

  /** Apart from the outcome of attempts, every step is quiet. */
  lemma StepQuiet(s: State, step: Step)
    requires Placed(s) && Enabled(s, step) && !step.Attempt?
    ensures Quiet(s, Apply(s, step))
  {
    match step
    case DropOldest(_) => QueueStepQuiet(s, step);
    case Fetch => QueueStepQuiet(s, step);
    case CheckSilences(_) => WorkerStepQuiet(s, step);
    case CheckCooldown(_) => WorkerStepQuiet(s, step);
    case Configure(_) =>
    case _ => SenderStepQuiet(s, step);
  }

  lemma WindowIsLast(failed: seq<Event>, e: Event)
    ensures Window(LastN(failed, PENDING), e) == LastN(failed + [e], PENDING)
  {
  }

  lemma ListsKept(s: State, step: Step)
    requires Placed(s) && FatesListed(s)
    ensures FatesListed(Apply(s, step))
  {
    var s' := Apply(s, step);
    if Enabled(s, step) {
      if step.Attempt? {
        AttemptKeepsLists(s, step);
      } else {
        StepQuiet(s, step);
        QuietKeepsLists(s, s');
      }
    }
  }

  lemma QuietKeepsLists(s: State, s': State)
    requires FatesListed(s) && Quiet(s, s')
    ensures FatesListed(s')
  {
  }

  lemma AttemptKeepsLists(s: State, step: Step)
    requires Placed(s) && FatesListed(s) && Enabled(s, step) && step.Attempt?
    ensures FatesListed(Apply(s, step))
  {
    var e := s.job.event;
    if step.ok {
      ListGrows(s.places, Delivered(s.sent), Sent, e);
      ListAlone(s.places, s.failed, Failed, e.id, Done(Sent));
      var success := Success(e, s.job.started, s.job.cooldown, step.now);
      assert Delivered(s.sent + [success]) == Delivered(s.sent) + [e];
    } else if s.job.attempts + 1 >= RETRIES {
      ListGrows(s.places, s.failed, Failed, e);
      ListAlone(s.places, Delivered(s.sent), Sent, e.id, Done(Failed));
      WindowIsLast(s.failed, e);
    }
  }

  // ---------- The cooldown, step by step ----------

  ghost predicate QueueKinds(queue: seq<Event>) {
    forall i | 0 <= i < |queue| :: queue[i].kind in KINDS
  }

  ghost predicate SenderKinds(senders: map<nat, Sender>) {
    forall p | p in senders :: senders[p].event.kind in KINDS
  }

  lemma KindsKept(s: State, step: Step)
    requires KnownKinds(s)
    ensures KnownKinds(Apply(s, step))
  {
    if Enabled(s, step) {
      match step
      case Raise(p, agent, kind) =>
      case TrySend(p) =>
      case DropOldest(p) =>
      case SendAgain(p) =>
      case Fetch =>
      case Configure(_) =>
      case _ => WorkerShape(s, step);
    }
  }

  predicate OfPair(x: Success, agent: string, kind: string) {
    x.event.agent == agent && x.event.kind == kind
  }

  /** The last success of a pair is the latest. */
  lemma {:induction false} LastSuccessIsLatest(sent: seq<Success>, agent: string, kind: string)
    requires forall i, j | 0 <= i < j < |sent| :: sent[i].recorded <= sent[j].recorded
    ensures match LastSuccess(sent, agent, kind)
      case None => forall i | 0 <= i < |sent| :: !OfPair(sent[i], agent, kind)
      case Some(t) =>
        && (exists i | 0 <= i < |sent| :: OfPair(sent[i], agent, kind) && sent[i].recorded == t)
        && (forall i | 0 <= i < |sent| && OfPair(sent[i], agent, kind) :: sent[i].recorded <= t)
  {
    if sent != [] {
      LastSuccessIsLatest(sent[..|sent| - 1], agent, kind);
    }
  }

  lemma LastSuccessAppend(sent: seq<Success>, x: Success, agent: string, kind: string)
    ensures LastSuccess(sent + [x], agent, kind)
         == if x.event.agent == agent && x.event.kind == kind then Some(x.recorded) else LastSuccess(sent, agent, kind)
  {
  }

  lemma SucceededKeepsTable(s: State, now: int)
    requires TableExact(s) && s.job.Trying? && s.job.event.kind in KINDS
    ensures TableExact(Succeeded(s, now))
  {
    var e, s' := s.job.event, Succeeded(s, now);
    var x := Success(e, s.job.started, s.job.cooldown, now);
    forall agent, kind | kind in KINDS
      ensures Lookup(s'.lastSent, KeyOf(agent, kind)) == LastSuccess(s'.sent, agent, kind)
    {
      LastSuccessAppend(s.sent, x, agent, kind);
      KeySeparatesPairs(agent, kind, e.agent, e.kind);
      assert Lookup(s.lastSent, KeyOf(agent, kind)) == LastSuccess(s.sent, agent, kind);
    }
  }

  lemma SucceededKeepsSpacing(s: State, now: int)
    requires CooldownKept(s) && s.job.Trying? && s.clock <= now
    ensures RecordedInOrder(Succeeded(s, now)) && Spaced(Succeeded(s, now).sent)
  {
  }

  /** Attempts begin only when every success of the pair is a cooldown away. */
  lemma CoolingKeeps(s: State, now: int)
    requires CooldownKept(s) && s.job.Passed? && s.job.event.kind in KINDS && s.clock <= now
    ensures CooldownKept(Cooling(s, s.job.event, now))
  {
    var e := s.job.event;
    LastSuccessIsLatest(s.sent, e.agent, e.kind);
    assert Lookup(s.lastSent, KeyOf(e.agent, e.kind)) == LastSuccess(s.sent, e.agent, e.kind);
  }

  /** Steps that deliver nothing and begin no attempts. */
  lemma CooldownAlone(s: State, s': State)
    requires CooldownKept(s)
    requires s'.lastSent == s.lastSent && s'.sent == s.sent && s.clock <= s'.clock
    requires s'.job.Trying? ==> s.job.Trying? && s'.job == s.job.(attempts := s'.job.attempts)
    ensures CooldownKept(s')
  {
  }

  lemma DeliversNothing(s: State, step: Step)
    requires Enabled(s, step) && !step.CheckCooldown? && !(step.Attempt? && step.ok)
    ensures var s' := Apply(s, step);
      && s'.lastSent == s.lastSent && s'.sent == s.sent && s.clock <= s'.clock
      && (s'.job.Trying? ==> s.job.Trying? && s'.job == s.job.(attempts := s'.job.attempts))
  {
  }

  lemma CooldownStep(s: State, step: Step)
    requires KnownKinds(s) && CooldownKept(s)
    ensures CooldownKept(Apply(s, step))
  {
    if Enabled(s, step) {
      if step.CheckCooldown? {
        CoolingKeeps(s, step.now);
      } else if step.Attempt? && step.ok {
        SucceededKeepsTable(s, step.now);
        SucceededKeepsSpacing(s, step.now);
      } else {
        DeliversNothing(s, step);
        CooldownAlone(s, Apply(s, step));
      }
    }
  }

  // ---------- Every run ----------

  lemma AttemptsBounded(s: State, step: Step)
    requires s.job.Trying? ==> s.job.attempts < RETRIES
    ensures var s' := Apply(s, step); s'.job.Trying? ==> s'.job.attempts < RETRIES
  {
  }

  lemma StepKeeps(s: State, step: Step)
    requires Inv(s)
    ensures Inv(Apply(s, step))
  {
    QueueKeeps(s, step);
    PlacesKept(s, step);
    ListsKept(s, step);
    KindsKept(s, step);
    CooldownStep(s, step);
    AttemptsBounded(s, step);
  }

  lemma {:induction false} RunInv(minutes: Option<int>, steps: seq<Step>)
    ensures Inv(Exec(minutes, steps))
  {
    if steps != [] {
      RunInv(minutes, steps[..|steps| - 1]);
      StepKeeps(Exec(minutes, steps[..|steps| - 1]), steps[|steps| - 1]);
    }
  }
}
