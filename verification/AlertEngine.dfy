/**
  The alert engine in its own form: methods over the shared queue, dedup table and window
  of failed alerts, with other goroutines' steps in between.  The object's history is a run
  of the step machine that ends in the object's state, so everything proved about runs holds.
 */
module AlertEngine {
  import opened Sequences
  import opened AlertMachine
  import opened AlertInvariant
  import opened AlertTheorems
  import opened AlertNotify
  import Silence

  /** What other goroutines do while goroutine `p` is between two steps of `enqueue`. */
  predicate NotBy(p: nat, step: Step) {
    match step
    case Raise(q, _, _) => q != p
    case TrySend(q) => q != p
    case DropOldest(q) => q != p
    case SendAgain(q) => q != p
    case _ => true
  }

  /** What goroutines other than the worker do. */
  predicate NotWorker(step: Step) {
    !step.Fetch? && !WorkerStep(step)
  }

  predicate SameSender(s: State, s': State, p: nat) {
    (p in s'.senders <==> p in s.senders) && (p in s.senders ==> s'.senders[p] == s.senders[p])
  }

  lemma OthersKeepSender(s: State, p: nat, step: Step)
    requires NotBy(p, step)
    ensures SameSender(s, Apply(s, step), p)
  {
  }

  /** What only the worker changes. */
  predicate SameWork(s: State, s': State) {
    s'.job == s.job && s'.sent == s.sent && s'.failed == s.failed && s'.clock == s.clock
  }

  lemma OthersKeepWork(s: State, step: Step)
    requires NotWorker(step)
    ensures SameWork(s, Apply(s, step))
  {
  }

  lemma PendingIsLast(minutes: Option<int>, steps: seq<Step>)
    ensures Exec(minutes, steps).pending == LastN(Exec(minutes, steps).failed, PENDING)
  {
    RunInv(minutes, steps);
  }

  class Engine {
    const initial: Option<int>
    const persister: Persister
    const silences: Silence.SilenceStore
    var queue: seq<Event>
    var lastSent: map<string, int>
    var pending: seq<Event>
    var minutes: Option<int>
    /** Where the goroutines are, and the records for stating what must hold. */
    var rest: State
    ghost var history: seq<Step>

    function View(): State
      reads this
    {
      rest.(queue := queue, lastSent := lastSent, pending := pending, minutes := minutes)
    }

    ghost predicate Valid()
      reads this
    {
      View() == Exec(initial, history)
    }

    constructor (config: Option<int>, p: Persister, s: Silence.SilenceStore)
      ensures Valid() && View() == Init(config) && initial == config && persister == p && silences == s
    {
      initial, persister, silences := config, p, s;
      queue, lastSent, pending, minutes := [], map[], [], config;
      rest, history := Init(config), [];
    }

    method Become(s: State)
      modifies this
      ensures View() == s && history == old(history)
    {
      queue, lastSent, pending, minutes, rest := s.queue, s.lastSent, s.pending, s.minutes, s;
    }

    /** A step of another goroutine, or one whose effect the caller states. */
    method Perform(step: Step)
      requires Valid()
      modifies this
      ensures Valid() && history == old(history) + [step] && View() == Apply(old(View()), step)
    {
      ExecExtends(initial, history, step);
      Become(Apply(View(), step));
      history := history + [step];
    }

    /** The scheduler lets everyone but goroutine `p` run for a while. */
    method OthersRun(p: nat)
      requires Valid()
      modifies this
      ensures Valid() && old(history) <= history
      ensures SameSender(old(rest), rest, p)
    {
      var n: nat := *;
      var i := 0;
      while i < n
        invariant Valid() && old(history) <= history
        invariant SameSender(old(rest), rest, p)
      {
        i := i + 1;
        var step: Step := *;
        if NotBy(p, step) {
          OthersKeepSender(View(), p, step);
          Perform(step);
        }
      }
    }

    /** The scheduler lets everyone but the worker run for a while. */
    method SendersRun()
      requires Valid()
      modifies this
      ensures Valid() && old(history) <= history
      ensures SameWork(old(rest), rest)
    {
      var n: nat := *;
      var i := 0;
      while i < n
        invariant Valid() && old(history) <= history
        invariant SameWork(old(rest), rest)
      {
        i := i + 1;
        var step: Step := *;
        if NotWorker(step) {
          OthersKeepWork(View(), step);
          Perform(step);
        }
      }
    }

    // ---------- enqueue ----------

    /** A select with a send and a default. */
    method TrySendOnce(p: nat) returns (ok: bool)
      requires Valid() && p in rest.senders && rest.senders[p].First?
      modifies this
      ensures Valid() && history == old(history) + [TrySend(p)]
      ensures ok == (|old(queue)| < 64) && |queue| <= 64
      ensures if ok then p !in rest.senders && queue == old(queue) + [old(rest).senders[p].event]
              else p in rest.senders && rest.senders[p] == Dropping(old(rest).senders[p].event) && queue == old(queue)
    {
      RunInv(initial, history);
      ExecExtends(initial, history, TrySend(p));
      history := history + [TrySend(p)];
      var e := rest.senders[p].event;
      if |queue| < QUEUE {
        queue := queue + [e];
        rest := rest.(inserted := rest.inserted + [e], senders := rest.senders - {p}, places := At(rest, e, Queued));
        return true;
      }
      rest := rest.(senders := rest.senders[p := Dropping(e)]);
      return false;
    }

    /** A select with a receive and a default. */
    method DropOldestOnce(p: nat) returns (dropped: Option<Event>)
      requires Valid() && p in rest.senders && rest.senders[p].Dropping?
      modifies this
      ensures Valid() && history == old(history) + [DropOldest(p)]
      ensures p in rest.senders && rest.senders[p].Second? && rest.senders[p].event == old(rest).senders[p].event
      ensures dropped == if old(queue) == [] then None else Some(old(queue)[0])
    {
      ExecExtends(initial, history, DropOldest(p));
      history := history + [DropOldest(p)];
      rest := rest.(senders := rest.senders[p := Second(rest.senders[p].event, |rest.inserted|)]);
      if |queue| == 0 {
        return None;
      }
      dropped := Some(queue[0]);
      queue := queue[1..];
      rest := rest.(removed := rest.removed + 1, places := At(rest, dropped.value, Done(DroppedOldest)));
    }

    method SendAgainOnce(p: nat) returns (ok: bool)
      requires Valid() && p in rest.senders && rest.senders[p].Second?
      modifies this
      ensures Valid() && history == old(history) + [SendAgain(p)] && p !in rest.senders
      ensures ok == (|old(queue)| < 64) && |queue| <= 64
      ensures queue == if ok then old(queue) + [old(rest).senders[p].event] else old(queue)
      ensures !ok ==> IsAt(rest.places, old(rest).senders[p].event.id, Done(GivenUp))
      ensures ok || (old(rest).senders[p].mark < |old(rest).inserted|
                     && old(rest).inserted[old(rest).senders[p].mark].producer != p)
    {
      RunInv(initial, history);
      ExecExtends(initial, history, SendAgain(p));
      history := history + [SendAgain(p)];
      var e := rest.senders[p].event;
      if |queue| < QUEUE {
        queue := queue + [e];
        rest := rest.(inserted := rest.inserted + [e], senders := rest.senders - {p}, places := At(rest, e, Queued));
        return true;
      }
      rest := rest.(senders := rest.senders - {p}, places := At(rest, e, Done(GivenUp)));
      return false;
    }

    /** After a full queue: drop the oldest event and send once more. */
    method MakeRoomAndSend(p: nat) returns (ok: bool)
      requires Valid() && p in rest.senders && rest.senders[p].Dropping?
      modifies this
      ensures Valid() && old(history) <= history && p !in rest.senders && |queue| <= 64
      ensures var e := old(rest).senders[p].event;
        if ok then queue != [] && queue[|queue| - 1] == e else IsAt(rest.places, e.id, Done(GivenUp))
    {
      OthersRun(p);
      var dropped := DropOldestOnce(p);
      OthersRun(p);
      ok := SendAgainOnce(p);
    }

    /**
      Enqueue never blocks: whatever others do in between, it ends after at most two sends, and
      the new event is then the newest of the queue, or the second send has failed.
     */
    method Enqueue(p: nat, agent: string, kind: string) returns (ok: bool, attempts: nat)
      requires Valid() && p !in rest.senders && kind in KINDS
      modifies this
      ensures Valid() && old(history) <= history
      ensures p !in rest.senders && 1 <= attempts <= 2 && |queue| <= 64
      ensures !ok ==> attempts == 2
      ensures var e := Event(old(rest).raised, p, agent, kind);
        if ok then queue != [] && queue[|queue| - 1] == e else IsAt(rest.places, e.id, Done(GivenUp))
    {
      Perform(Raise(p, agent, kind));
      OthersRun(p);
      attempts := 1;
      ok := TrySendOnce(p);
      if !ok {
        attempts := 2;
        ok := MakeRoomAndSend(p);
      }
    }

    // ---------- deliver ----------

    /** The worker's receive. */
    method FetchOnce()
      requires Valid() && rest.job.Free? && queue != []
      modifies this
      ensures Valid() && history == old(history) + [Fetch]
      ensures queue == old(queue)[1..] && rest.job == Fetched(old(queue)[0]) && rest.sent == old(rest).sent
    {
      ExecExtends(initial, history, Fetch);
      history := history + [Fetch];
      var e := queue[0];
      queue := queue[1..];
      rest := rest.(job := Fetched(e), removed := rest.removed + 1, taken := rest.taken + [rest.removed],
                    places := At(rest, e, AtWorker));
    }

    /** After any number of failed alerts the window has the last hundred of them. */
    method RecordPending(e: Event, ghost failed: seq<Event>)
      requires pending == LastN(failed, PENDING)
      modifies this`pending
      ensures pending == LastN(failed + [e], 100)
      ensures |pending| <= 100 && pending == (failed + [e])[|failed| + 1 - |pending|..]
      ensures |failed| + 1 <= 100 ==> |pending| == |failed| + 1
      ensures |failed| + 1 >= 100 ==> |pending| == 100
    {
      WindowIsLast(failed, e);
      if |pending| >= PENDING {
        pending := pending[1..];
      }
      pending := pending + [e];
    }

    method Settle(e: Event, fate: Fate)
      modifies this`rest
      ensures rest == Ended(old(rest), e, fate)
    {
      rest := rest.(job := Free, places := At(rest, e, Done(fate)));
    }

    /** The silence check; the store prunes itself while answering. */
    method CheckSilence(now: int) returns (silenced: bool)
      requires Valid() && rest.job.Fetched?
      modifies this, silences
      ensures Valid() && history == old(history) + [CheckSilences(silenced)]
      ensures View() == Apply(old(View()), CheckSilences(silenced))
      ensures var e := old(rest).job.event;
        silenced <==> Silence.Answer(old(silences.entries), e.agent, e.kind, now)
    {
      var e := rest.job.event;
      silenced := silences.IsSilenced(e.agent, e.kind, now);
      ExecExtends(initial, history, CheckSilences(silenced));
      history := history + [CheckSilences(silenced)];
      if silenced {
        Settle(e, Silenced);
      } else {
        rest := rest.(job := Passed(e));
      }
    }

    /** The dedup check: cools down exactly within the cooldown of a success of the same pair. */
    method CheckDedup(now: int) returns (cooling: bool)
      requires Valid() && rest.job.Passed? && rest.clock <= now
      modifies this
      ensures Valid() && history == old(history) + [CheckCooldown(now)]
      ensures View() == Apply(old(View()), CheckCooldown(now)) && (cooling <==> rest.job.Free?)
      ensures var sent, e := old(rest).sent, old(rest).job.event;
        cooling <==> exists i :: 0 <= i < |sent| && SamePair(sent[i].event, e)
                              && now - sent[i].recorded < InForce(old(minutes))
    {
      CooledDownExactly(initial, history, now);
      ExecExtends(initial, history, CheckCooldown(now));
      history := history + [CheckCooldown(now)];
      var e := rest.job.event;
      var key := e.agent + "|" + e.kind;
      var cooldown := CooldownNow(View());
      rest := rest.(clock := now);
      cooling := key in lastSent && now - lastSent[key] < cooldown;
      if cooling {
        Settle(e, CooledDown);
      } else {
        rest := rest.(job := Trying(e, now, cooldown, 0));
      }
    }

    /** One attempt: notify the channels, and settle the alert on success or on the last failure. */
    method AttemptOnce(now: int, outcomes: seq<Outcome>) returns (ok: bool)
      requires Valid() && rest.job.Trying? && rest.clock <= now
      modifies this, persister
      ensures Valid() && ok == FanoutOutcome(outcomes).None? && history == old(history) + [Attempt(ok, now)]
      ensures View() == Apply(old(View()), Attempt(ok, now))
      ensures persister.records == if ok then old(persister.records) + [old(rest).job.event] else old(persister.records)
    {
      var job := rest.job;
      PendingIsLast(initial, history);
      WindowIsLast(rest.failed, job.event);
      var outcome := persister.Notify(job.event, outcomes);
      ok := outcome.None?;
      ExecExtends(initial, history, Attempt(ok, now));
      history := history + [Attempt(ok, now)];
      rest := rest.(clock := now);
      if ok {
        lastSent := lastSent[job.event.agent + "|" + job.event.kind := now];
        rest := rest.(sent := rest.sent + [Success(job.event, job.started, job.cooldown, now)]);
        Settle(job.event, Sent);
      } else if job.attempts + 1 < RETRIES {
        rest := rest.(job := job.(attempts := job.attempts + 1));
      } else {
        RecordPending(job.event, rest.failed);
        rest := rest.(failed := rest.failed + [job.event]);
        Settle(job.event, Failed);
      }
    }

    method Clock() returns (now: int)
      ensures now >= rest.clock
    {
      now := *;
      if now < rest.clock {
        now := rest.clock;
      }
    }

    /** The retry loop of `deliver`: at most three attempts, one record exactly if one of them succeeds. */
    method Retry() returns (ok: bool, attempts: nat)
      requires Valid() && rest.job.Trying? && rest.job.attempts == 0
      modifies this, persister
      ensures Valid() && old(history) <= history && rest.job.Free?
      ensures 1 <= attempts <= 3 && (!ok ==> attempts == 3)
      ensures IsAt(rest.places, old(rest).job.event.id, Done(if ok then Sent else Failed))
      ensures Delivered(rest.sent) == Delivered(old(rest).sent) + (if ok then [old(rest).job.event] else [])
      ensures rest.failed == old(rest).failed + (if ok then [] else [old(rest).job.event])
      ensures persister.records == old(persister.records) + (if ok then [old(rest).job.event] else [])
    {
      ghost var e := rest.job.event;
      ok, attempts := false, 0;
      while rest.job.Trying?
        invariant Valid() && old(history) <= history && 0 <= attempts <= RETRIES
        invariant rest.job.Trying? || rest.job.Free?
        invariant rest.job.Trying? ==> rest.job.attempts == attempts < RETRIES && rest.job.event == e && !ok
        invariant rest.job.Free? ==> 1 <= attempts && (!ok ==> attempts == RETRIES)
        invariant rest.job.Free? ==> IsAt(rest.places, e.id, Done(if ok then Sent else Failed))
        invariant Delivered(rest.sent) == Delivered(old(rest).sent) + (if ok then [e] else [])
        invariant rest.failed == old(rest).failed + (if rest.job.Free? && !ok then [e] else [])
        invariant persister.records == old(persister.records) + (if ok then [e] else [])
        decreases RETRIES - attempts
      {
        SendersRun();
        var now := Clock();
        var outcomes: seq<Outcome> := *;
        ghost var sent := rest.sent;
        ok := AttemptOnce(now, outcomes);
        if ok {
          assert Delivered(rest.sent) == Delivered(sent) + [e];
        }
        attempts := attempts + 1;
      }
    }

    /** `deliver`: silenced, cooled down, sent with one record, or failed after three attempts. */
    method Deliver() returns (fate: Fate)
      requires Valid() && rest.job.Fetched?
      modifies this, persister, silences
      ensures Valid() && old(history) <= history && rest.job.Free?
      ensures fate in {Silenced, CooledDown, Sent, Failed}
      ensures IsAt(rest.places, old(rest).job.event.id, Done(fate))
      ensures Delivered(rest.sent) == Delivered(old(rest).sent) + (if fate == Sent then [old(rest).job.event] else [])
      ensures rest.failed == old(rest).failed + (if fate == Failed then [old(rest).job.event] else [])
      ensures persister.records == old(persister.records) + (if fate == Sent then [old(rest).job.event] else [])
    {
      var now := Clock();
      var silenced := CheckSilence(now);
      if silenced {
        return Silenced;
      }
      SendersRun();
      now := Clock();
      var cooling := CheckDedup(now);
      if cooling {
        return CooledDown;
      }
      var ok, attempts := Retry();
      fate := if ok then Sent else Failed;
    }

    /**
      Run: takes and delivers events one after the other; `turns` bounds the turns seen.  The
      records made are those of the alerts sent meanwhile, one each, in the order they were sent.
     */
    method Run(turns: nat)
      requires Valid() && rest.job.Free?
      modifies this, persister, silences
      ensures Valid() && old(history) <= history && rest.job.Free?
      ensures Delivered(old(rest).sent) <= Delivered(rest.sent)
      ensures persister.records == old(persister.records) + Delivered(rest.sent)[|old(rest).sent|..]
    {
      var turn := 0;
      ghost var made: seq<Event> := [];
      while turn < turns
        invariant Valid() && old(history) <= history && rest.job.Free?
        invariant Delivered(rest.sent) == Delivered(old(rest).sent) + made
        invariant persister.records == old(persister.records) + made
      {
        turn := turn + 1;
        SendersRun();
        if |queue| > 0 {
          ghost var e := queue[0];
          FetchOnce();
          var fate := Deliver();
          made := made + (if fate == Sent then [e] else []);
        }
      }
    }
  }
}
