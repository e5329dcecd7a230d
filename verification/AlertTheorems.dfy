/** Alert dispatch over whole runs: accounting, giving up, and the cooldown. */
module AlertTheorems {
  import opened Sequences
  import opened AlertConfig
  import opened AlertMachine
  import opened AlertInvariant

  lemma ExecExtends(minutes: Option<int>, steps: seq<Step>, step: Step)
    ensures Exec(minutes, steps + [step]) == Apply(Exec(minutes, steps), step)
  {
  }

  /** The events the worker has received from the queue, one at each of its fetches. */
  function Dequeued(minutes: Option<int>, steps: seq<Step>): seq<Event> {
    if steps == [] then []
    else
      var front, step := steps[..|steps| - 1], steps[|steps| - 1];
      var s := Exec(minutes, front);
      Dequeued(minutes, front) + (if step.Fetch? && Enabled(s, step) then [s.queue[0]] else [])
  }

  /** The recorded positions are those of the events in the insertion order. */
  ghost predicate Located(s: State, dequeued: seq<Event>) {
    && |dequeued| == |s.taken|
    && forall k | 0 <= k < |dequeued| :: s.taken[k] < |s.inserted| && dequeued[k] == s.inserted[s.taken[k]]
  }

  /** The worker is done with all it has received, except for the one it is busy with. */
  function Settled(s: State, dequeued: seq<Event>): seq<Event> {
    if s.job.Free? || dequeued == [] then dequeued else dequeued[..|dequeued| - 1]
  }

  ghost predicate Handled(s: State, dequeued: seq<Event>) {
    && (!s.job.Free? ==> dequeued != [] && dequeued[|dequeued| - 1] == s.job.event)
    && Subsequence(Delivered(s.sent), Settled(s, dequeued))
    && Subsequence(s.failed, Settled(s, dequeued))
  }

  lemma FetchLocated(s: State, dequeued: seq<Event>)
    requires Fifo(s) && Located(s, dequeued) && s.queue != []
    ensures Located(Fetching(s), dequeued + [s.queue[0]])
  {
  }

  lemma StepLocated(s: State, step: Step, dequeued: seq<Event>)
    requires Fifo(s) && Located(s, dequeued) && !(step.Fetch? && Enabled(s, step))
    ensures Located(Apply(s, step), dequeued)
  {
  }

  lemma FetchHandled(s: State, dequeued: seq<Event>)
    requires Handled(s, dequeued) && s.job.Free? && s.queue != []
    ensures Handled(Fetching(s), dequeued + [s.queue[0]])
  {
    assert (dequeued + [s.queue[0]])[..|dequeued|] == dequeued;
  }

  /** The worker is done with an alert, and has put it on a list or not. */
  lemma DoneHandled(s: State, s': State, dequeued: seq<Event>)
    requires Handled(s, dequeued) && !s.job.Free? && s'.job.Free?
    requires Delivered(s'.sent) == Delivered(s.sent) || Delivered(s'.sent) == Delivered(s.sent) + [s.job.event]
    requires s'.failed == s.failed || s'.failed == s.failed + [s.job.event]
    ensures Handled(s', dequeued)
  {
    var e, front := s.job.event, dequeued[..|dequeued| - 1];
    assert dequeued == front + [e];
    SkipLast(Delivered(s.sent), front, e);
    SkipLast(s.failed, front, e);
    KeepLast(Delivered(s.sent), front, e);
    KeepLast(s.failed, front, e);
  }

  /** What an alert's end or a step that ends none does to the lists. */
  lemma WorkerLists(s: State, step: Step)
    requires Enabled(s, step) && WorkerStep(step)
    ensures var s' := Apply(s, step);
      if s'.job.Free? then
        && (Delivered(s'.sent) == Delivered(s.sent) || Delivered(s'.sent) == Delivered(s.sent) + [s.job.event])
        && (s'.failed == s.failed || s'.failed == s.failed + [s.job.event])
      else s'.job.event == s.job.event && s'.sent == s.sent && s'.failed == s.failed
  {
  }

  lemma WorkerHandled(s: State, step: Step, dequeued: seq<Event>)
    requires Handled(s, dequeued) && Enabled(s, step) && WorkerStep(step)
    ensures Handled(Apply(s, step), dequeued)
  {
    WorkerLists(s, step);
    if Apply(s, step).job.Free? {
      DoneHandled(s, Apply(s, step), dequeued);
    }
  }

  lemma OtherHandled(s: State, step: Step, dequeued: seq<Event>)
    requires Handled(s, dequeued) && !step.Fetch? && !WorkerStep(step)
    ensures Handled(Apply(s, step), dequeued)
  {
  }

  lemma {:induction false} RunLocated(minutes: Option<int>, steps: seq<Step>)
    ensures Located(Exec(minutes, steps), Dequeued(minutes, steps))
  {
    if steps != [] {
      var front, step := steps[..|steps| - 1], steps[|steps| - 1];
      RunLocated(minutes, front);
      RunInv(minutes, front);
      if step.Fetch? && Enabled(Exec(minutes, front), step) {
        FetchLocated(Exec(minutes, front), Dequeued(minutes, front));
      } else {
        StepLocated(Exec(minutes, front), step, Dequeued(minutes, front));
      }
    }
  }

  lemma {:induction false} RunHandled(minutes: Option<int>, steps: seq<Step>)
    ensures Handled(Exec(minutes, steps), Dequeued(minutes, steps))
  {
    if steps != [] {
      var front, step := steps[..|steps| - 1], steps[|steps| - 1];
      var s, dequeued := Exec(minutes, front), Dequeued(minutes, front);
      RunHandled(minutes, front);
      assert dequeued + [] == dequeued;
      if Enabled(s, step) {
        if step.Fetch? {
          FetchHandled(s, dequeued);
        } else if WorkerStep(step) {
          WorkerHandled(s, step, dequeued);
        } else {
          OtherHandled(s, step, dequeued);
        }
      }
    }
  }

  lemma PickOneMore<T>(all: seq<T>, p: nat, picked: seq<T>)
    requires p < |all| && Subsequence(picked, all[..p])
    ensures Subsequence(picked + [all[p]], all)
  {
    KeepLast(picked, all[..p], all[p]);
    SkipTail(picked + [all[p]], all[..p] + [all[p]], all[p + 1..]);
    assert all == (all[..p] + [all[p]]) + all[p + 1..];
  }

  lemma {:induction false} PickedIsSubsequence<T>(all: seq<T>, positions: seq<nat>, picked: seq<T>)
    requires Increasing(positions) && |picked| == |positions|
    requires forall k | 0 <= k < |picked| :: positions[k] < |all| && picked[k] == all[positions[k]]
    ensures Subsequence(picked, all)
  {
    if picked != [] {
      var n := |picked| - 1;
      var p := positions[n];
      PickedIsSubsequence(all[..p], positions[..n], picked[..n]);
      PickOneMore(all, p, picked[..n]);
      assert picked[..n] + [all[p]] == picked;
    }
  }

  /**
    Order of delivery, in every run: the events the worker received are a subsequence of the
    insertion order, at the recorded positions, and the alerts sent and the alerts failed are
    subsequences of it in turn.
   */
  lemma DequeuedInOrder(minutes: Option<int>, steps: seq<Step>)
    ensures var s, dequeued := Exec(minutes, steps), Dequeued(minutes, steps);
      && Located(s, dequeued)
      && Subsequence(dequeued, s.inserted)
      && Subsequence(Delivered(s.sent), dequeued) && Subsequence(Delivered(s.sent), s.inserted)
      && Subsequence(s.failed, dequeued) && Subsequence(s.failed, s.inserted)
  {
    var s, dequeued := Exec(minutes, steps), Dequeued(minutes, steps);
    RunInv(minutes, steps);
    RunLocated(minutes, steps);
    RunHandled(minutes, steps);
    PickedIsSubsequence(s.inserted, s.taken, dequeued);
    SettledIsSubsequence(s, dequeued, Delivered(s.sent));
    SettledIsSubsequence(s, dequeued, s.failed);
    SubsequenceTransitive(Delivered(s.sent), dequeued, s.inserted);
    SubsequenceTransitive(s.failed, dequeued, s.inserted);
  }

  lemma SettledIsSubsequence(s: State, dequeued: seq<Event>, done: seq<Event>)
    requires Subsequence(done, Settled(s, dequeued))
    ensures Subsequence(done, dequeued)
  {
    if Settled(s, dequeued) != dequeued {
      SkipLast(done, Settled(s, dequeued), dequeued[|dequeued| - 1]);
      assert Settled(s, dequeued) + [dequeued[|dequeued| - 1]] == dequeued;
    }
  }

  /**
    Accounting, in every run: the queue never exceeds its capacity and is the rest of what
    was inserted; every alert raised is in exactly one place, in one sender's hand, in the
    queue once, at the worker, or at its one fate; what the worker received is a subsequence
    of the insertion order, with what was sent and what failed subsequences of that; and the
    failed alerts kept are the last hundred.
   */
  lemma AlertAccounting(minutes: Option<int>, steps: seq<Step>)
    ensures var s := Exec(minutes, steps);
      && |s.queue| <= 64
      && s.removed <= |s.inserted| && s.queue == s.inserted[s.removed..]
      && Increasing(s.taken) && (forall t | t in s.taken :: t < s.removed)
      && (forall id: nat :: id in s.places <==> id < s.raised)
      && HandsPlaced(s.places, s.senders) && QueuePlaced(s.places, s.queue) && JobPlaced(s.places, s.job)
      && Lists(s.places, s.failed, Failed) && Lists(s.places, Delivered(s.sent), Sent)
      && Subsequence(Dequeued(minutes, steps), s.inserted)
      && Subsequence(Delivered(s.sent), Dequeued(minutes, steps))
      && Subsequence(s.failed, Dequeued(minutes, steps))
      && s.pending == LastN(s.failed, 100)
  {
    RunInv(minutes, steps);
    DequeuedInOrder(minutes, steps);
  }

  /** A step moves only alerts that have not met their fate. */
  lemma StepKeepsFates(s: State, step: Step, id: nat)
    requires Placed(s) && id in s.places && s.places[id].Done?
    ensures var s' := Apply(s, step); id in s'.places && s'.places[id] == s.places[id]
  {
    if Enabled(s, step) {
      if step.Attempt? {
        WorkerShape(s, step);
      } else {
        StepQuiet(s, step);
      }
    }
  }

  /** Fates are final. */
  lemma {:induction false} FatesAreFinal(minutes: Option<int>, steps: seq<Step>, more: seq<Step>, id: nat)
    requires var s := Exec(minutes, steps); id in s.places && s.places[id].Done?
    ensures var s, s' := Exec(minutes, steps), Exec(minutes, steps + more);
      id in s'.places && s'.places[id] == s.places[id]
  {
    if more == [] {
      assert steps + more == steps;
    } else {
      var front, step := more[..|more| - 1], more[|more| - 1];
      FatesAreFinal(minutes, steps, front, id);
      assert steps + more == (steps + front) + [step];
      ExecExtends(minutes, steps + front, step);
      RunInv(minutes, steps + front);
      StepKeepsFates(Exec(minutes, steps + front), step, id);
    }
  }

  /**
    Giving up needs a rival: when a sender finds the queue full again after making room,
    another goroutine's event was inserted since, into the room it had made.
   */
  lemma GivingUpNeedsARival(minutes: Option<int>, steps: seq<Step>, p: nat)
    requires var s := Exec(minutes, steps); p in s.senders && s.senders[p].Second?
    requires var s := Exec(minutes, steps);
      IsAt(Apply(s, SendAgain(p)).places, s.senders[p].event.id, Done(GivenUp))
    ensures var s := Exec(minutes, steps);
      var mark := s.senders[p].mark;
      && |s.queue| == 64
      && mark < |s.inserted| && s.inserted[mark].producer != p
      && (forall i | mark <= i < |s.inserted| :: s.inserted[i].producer != p)
  {
    RunInv(minutes, steps);
  }

  /** What must have happened for an alert to get its fate in a step. */
  ghost predicate Caused(s: State, step: Step, id: nat, fate: Fate) {
    match fate
    case Silenced => step == CheckSilences(true) && s.job.Fetched? && s.job.event.id == id
    case CooledDown =>
      step.CheckCooldown? && s.job.Passed? && s.job.event.id == id && CoolingDown(s, s.job.event, step.now)
    case Sent => step.Attempt? && step.ok && s.job.Trying? && s.job.event.id == id
    case Failed => step.Attempt? && !step.ok && s.job.Trying? && s.job.event.id == id && s.job.attempts >= 2
    case DroppedOldest => step.DropOldest? && s.queue != [] && s.queue[0].id == id
    case GivenUp => step.SendAgain? && |s.queue| >= 64 && step.p in s.senders && s.senders[step.p].event.id == id
  }

  /** A fate arises only from the event it names: a third failed attempt, a full queue, a live silence, and so on. */
  lemma FateHasCause(s: State, step: Step, id: nat)
    requires id in Apply(s, step).places && Apply(s, step).places[id].Done?
    requires id in s.places ==> !s.places[id].Done?
    ensures Caused(s, step, id, Apply(s, step).places[id].fate)
  {
  }

  /** Room is made only in a full queue. */
  lemma DropsOnlyWhenFull(minutes: Option<int>, steps: seq<Step>, p: nat)
    requires var s := Exec(minutes, steps); p in s.senders && s.senders[p].First?
    ensures var s, s' := Exec(minutes, steps), Apply(Exec(minutes, steps), TrySend(p));
      (p in s'.senders && s'.senders[p].Dropping?) <==> |s.queue| == 64
  {
    RunInv(minutes, steps);
  }

  // ---------- The cooldown ----------

  /** No configuration asks for more minutes than a duration can hold. */
  ghost predicate Modest(minutes: Option<int>, steps: seq<Step>) {
    && (minutes.Some? ==> minutes.value <= 153722867)
    && forall i | 0 <= i < |steps| && steps[i].Configure? :: steps[i].minutes <= 153722867
  }

  ghost predicate AtLeastAMinute(s: State) {
    && (s.minutes.Some? ==> s.minutes.value <= 153722867)
    && (s.job.Trying? ==> s.job.cooldown >= 60_000_000_000)
    && forall i | 0 <= i < |s.sent| :: s.sent[i].cooldown >= 60_000_000_000
  }

  lemma ModestStep(s: State, step: Step)
    requires AtLeastAMinute(s) && (step.Configure? ==> step.minutes <= 153722867)
    ensures AtLeastAMinute(Apply(s, step))
  {
    if step.CheckCooldown? && s.minutes.Some? {
      CooldownAtLeastAMinute(s.minutes.value);
    }
  }

  lemma {:induction false} ModestRun(minutes: Option<int>, steps: seq<Step>)
    requires Modest(minutes, steps)
    ensures AtLeastAMinute(Exec(minutes, steps))
  {
    if steps != [] {
      ModestRun(minutes, steps[..|steps| - 1]);
      ModestStep(Exec(minutes, steps[..|steps| - 1]), steps[|steps| - 1]);
    }
  }

  /**
    Cooldown over whole runs, under any updates of the configuration: the attempts that end
    in a success for an agent and alert type began at least the cooldown then in force after
    every earlier success of the pair was recorded, which is at least a minute as long as no
    configuration overflows a duration.
   */
  lemma CooldownOverRuns(minutes: Option<int>, steps: seq<Step>, i: nat, j: nat)
    requires var sent := Exec(minutes, steps).sent; i < j < |sent| && SamePair(sent[i].event, sent[j].event)
    ensures var sent := Exec(minutes, steps).sent;
      && sent[j].started - sent[i].recorded >= sent[j].cooldown
      && (Modest(minutes, steps) ==> sent[j].started - sent[i].recorded >= 60_000_000_000)
  {
    RunInv(minutes, steps);
    if Modest(minutes, steps) {
      ModestRun(minutes, steps);
    }
  }

  /** The cooldown in force: ten minutes without a configuration. */
  function InForce(minutes: Option<int>): int {
    match minutes case None => 600_000_000_000 case Some(m) => Cooldown(m)
  }

  /** An alert is cooled down exactly when a success of its own pair was recorded less than the cooldown ago. */
  lemma CooledDownExactly(minutes: Option<int>, steps: seq<Step>, now: int)
    requires var s := Exec(minutes, steps); s.job.Passed? && s.clock <= now
    ensures var s := Exec(minutes, steps);
      Apply(s, CheckCooldown(now)).job.Free? <==>
        exists i :: 0 <= i < |s.sent| && SamePair(s.sent[i].event, s.job.event)
                 && now - s.sent[i].recorded < InForce(s.minutes)
  {
    RunInv(minutes, steps);
    CoolingExactly(Exec(minutes, steps), now);
  }

  lemma CoolingExactly(s: State, now: int)
    requires TableExact(s) && RecordedInOrder(s) && s.job.Passed? && s.job.event.kind in KINDS && s.clock <= now
    ensures Apply(s, CheckCooldown(now)).job.Free? <==>
      exists i :: 0 <= i < |s.sent| && SamePair(s.sent[i].event, s.job.event)
               && now - s.sent[i].recorded < CooldownNow(s)
  {
    var e := s.job.event;
    LastSuccessIsLatest(s.sent, e.agent, e.kind);
    assert Lookup(s.lastSent, KeyOf(e.agent, e.kind)) == LastSuccess(s.sent, e.agent, e.kind);
  }

  /** One alert, from being raised to its success, all at one moment. */
  function Through(s: State, p: nat, agent: string, kind: string, now: int): State {
    var raised := Apply(s, Raise(p, agent, kind));
    var fetched := Apply(Apply(raised, TrySend(p)), Fetch);
    Apply(Apply(Apply(fetched, CheckSilences(false)), CheckCooldown(now)), Attempt(true, now))
  }

  /** Nobody is doing anything, and every pair has cooled down. */
  ghost predicate Quiescent(s: State, now: int) {
    && s.queue == [] && s.senders == map[] && s.job.Free? && s.clock <= now
    && forall k | k in s.lastSent :: now - s.lastSent[k] >= CooldownNow(s)
  }

  lemma OneAlertThrough(s: State, p: nat, agent: string, kind: string, now: int)
    requires Quiescent(s, now) && kind in KINDS
    ensures var s' := Through(s, p, agent, kind, now);
      && s'.queue == [] && s'.senders == map[] && s'.job.Free? && s'.clock == now
      && s'.minutes == s.minutes && s'.lastSent == s.lastSent[KeyOf(agent, kind) := now]
      && s'.sent == s.sent + [Success(Event(s.raised, p, agent, kind), now, CooldownNow(s), now)]
  {
    var e := Event(s.raised, p, agent, kind);
    var raised := Apply(s, Raise(p, agent, kind));
    var queued := Apply(raised, TrySend(p));
    assert queued.queue == [e] && queued.senders == map[];
    var fetched := Apply(queued, Fetch);
    assert fetched.job == Fetched(e) && fetched.queue == [];
    var passed := Apply(fetched, CheckSilences(false));
    var trying := Apply(passed, CheckCooldown(now));
    assert trying.job == Trying(e, now, CooldownNow(s), 0);
  }

  ghost predicate NoUpdates(steps: seq<Step>) {
    forall i | 0 <= i < |steps| :: !steps[i].Configure?
  }

  lemma ThroughRuns(minutes: Option<int>, steps: seq<Step>, p: nat, agent: string, kind: string, now: int)
    returns (more: seq<Step>)
    requires NoUpdates(steps)
    ensures NoUpdates(more) && Exec(minutes, more) == Through(Exec(minutes, steps), p, agent, kind, now)
  {
    ExecExtends(minutes, steps, Raise(p, agent, kind));
    var a := steps + [Raise(p, agent, kind)];
    ExecExtends(minutes, a, TrySend(p));
    var b := a + [TrySend(p)];
    ExecExtends(minutes, b, Fetch);
    var c := b + [Fetch];
    ExecExtends(minutes, c, CheckSilences(false));
    var d := c + [CheckSilences(false)];
    ExecExtends(minutes, d, CheckCooldown(now));
    var e := d + [CheckCooldown(now)];
    ExecExtends(minutes, e, Attempt(true, now));
    more := e + [Attempt(true, now)];
  }

  /** With any configuration a pair can succeed twice as soon as the cooldown, negative or not, is over. */
  lemma TwiceAfterCooldown(m: int) returns (steps: seq<Step>)
    ensures NoUpdates(steps)
    ensures var sent := Exec(Some(m), steps).sent;
      && |sent| == 2 && SamePair(sent[0].event, sent[1].event)
      && sent[1].started - sent[0].recorded == if Cooldown(m) < 0 then 0 else Cooldown(m)
  {
    var now := if Cooldown(m) < 0 then 0 else Cooldown(m);
    assert Exec(Some(m), []) == Init(Some(m));
    OneAlertThrough(Init(Some(m)), 0, "a", "CPU_HIGH", 0);
    var first := ThroughRuns(Some(m), [], 0, "a", "CPU_HIGH", 0);
    OneAlertThrough(Exec(Some(m), first), 0, "a", "CPU_HIGH", now);
    steps := ThroughRuns(Some(m), first, 0, "a", "CPU_HIGH", now);
  }

  /** A cooldown that overflows is no cooldown: with 153722868 minutes a pair succeeds twice at one moment. */
  lemma OverflowLosesCooldown()
    ensures exists steps :: Repeats(Exec(Some(153722868), steps).sent)
  {
    CooldownOverflows();
    var steps := TwiceAfterCooldown(153722868);
    assert Repeats(Exec(Some(153722868), steps).sent);
  }

  /** Two successes of one pair with no time in between. */
  ghost predicate Repeats(sent: seq<Success>) {
    exists i, j :: 0 <= i < j < |sent| && SamePair(sent[i].event, sent[j].event) && sent[j].started == sent[i].recorded
  }

  /** The minutes of the last update, ten if they are not positive, or those of the start. */
  function LastMinutes(m: int, steps: seq<Step>): int {
    if steps == [] then m
    else
      var step := steps[|steps| - 1];
      if step.Configure? then (if step.minutes >= 1 then step.minutes else 10)
      else LastMinutes(m, steps[..|steps| - 1])
  }

  /** An update of the configuration takes effect at once: the minutes in force are always the latest. */
  lemma {:induction false} UpdatesTakeEffect(m: int, steps: seq<Step>)
    ensures Exec(Some(m), steps).minutes == Some(LastMinutes(m, steps))
  {
    if steps != [] {
      UpdatesTakeEffect(m, steps[..|steps| - 1]);
    }
  }

  /** Without updates every cooldown is that of the configuration. */
  ghost predicate OneCooldown(s: State, m: int) {
    && s.minutes == Some(m)
    && (s.job.Trying? ==> s.job.cooldown == Cooldown(m))
    && forall i | 0 <= i < |s.sent| :: s.sent[i].cooldown == Cooldown(m)
  }

  lemma {:induction false} OneCooldownRun(m: int, steps: seq<Step>)
    requires NoUpdates(steps)
    ensures OneCooldown(Exec(Some(m), steps), m)
  {
    if steps != [] {
      OneCooldownRun(m, steps[..|steps| - 1]);
      OneCooldownStep(Exec(Some(m), steps[..|steps| - 1]), m, steps[|steps| - 1]);
    }
  }

  lemma OneCooldownStep(s: State, m: int, step: Step)
    requires OneCooldown(s, m) && !step.Configure?
    ensures OneCooldown(Apply(s, step), m)
  {
  }

  /** Successes of one pair are at least so long apart. */
  ghost predicate Apart(sent: seq<Success>, wait: int) {
    forall i, j | 0 <= i < j < |sent| && SamePair(sent[i].event, sent[j].event) ::
      sent[j].started - sent[i].recorded >= wait
  }

  lemma ModestApart(m: int, steps: seq<Step>)
    requires NoUpdates(steps) && 1 <= m <= 153722867
    ensures Apart(Exec(Some(m), steps).sent, m * 60_000_000_000)
  {
    var sent := Exec(Some(m), steps).sent;
    CooldownExact(m);
    OneCooldownRun(m, steps);
    forall i, j | 0 <= i < j < |sent| && SamePair(sent[i].event, sent[j].event)
      ensures sent[j].started - sent[i].recorded >= m * 60_000_000_000
    {
      CooldownOverRuns(Some(m), steps, i, j);
    }
  }

  /**
    The configured minutes are kept in every run without updates if and only if there are at
    most 153722867 of them.
   */
  lemma MinutesKeptIff(m: int)
    requires m >= 1
    ensures (forall steps | NoUpdates(steps) :: Apart(Exec(Some(m), steps).sent, m * 60_000_000_000))
       <==> m <= 153722867
  {
    if m <= 153722867 {
      forall steps | NoUpdates(steps) ensures Apart(Exec(Some(m), steps).sent, m * 60_000_000_000) {
        ModestApart(m, steps);
      }
    } else {
      var steps := TwiceAfterCooldown(m);
      assert !Apart(Exec(Some(m), steps).sent, m * 60_000_000_000);
    }
  }
}
