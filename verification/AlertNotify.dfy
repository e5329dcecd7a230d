/** Channels, the fan-out over them, and the record kept of what was sent. */
module AlertNotify {
  import opened Sequences
  import opened AlertMachine

  /** What one channel or notifier answers: no error, or one. */
  type Outcome = Option<string>

  /** The fan-out fails only if there are channels and all of them fail, and then with the last one's error. */
  function FanoutOutcome(outcomes: seq<Outcome>): Outcome {
    if outcomes == [] || None in outcomes then None else outcomes[|outcomes| - 1]
  }

  /** FanoutNotifier.Notify over what its channels, those that are not nil, answer. */
  method Fanout(outcomes: seq<Outcome>) returns (outcome: Outcome)
    ensures outcome == FanoutOutcome(outcomes)
    ensures outcome == None <==> outcomes == [] || exists i :: 0 <= i < |outcomes| && outcomes[i] == None
    ensures outcome.Some? ==> outcomes != [] && outcome == outcomes[|outcomes| - 1]
  {
    if |outcomes| == 0 {
      return None;
    }
    var lastErr: Outcome := None;
    var ok := 0;
    var i := 0;
    while i < |outcomes|
      invariant 0 <= i <= |outcomes| && 0 <= ok
      invariant ok == 0 <==> None !in outcomes[..i]
      invariant ok == 0 && i > 0 ==> lastErr == outcomes[i - 1]
    {
      assert outcomes[..i + 1] == outcomes[..i] + [outcomes[i]];
      if outcomes[i].Some? {
        lastErr := outcomes[i];
      } else {
        ok := ok + 1;
      }
      i := i + 1;
    }
    assert outcomes[..i] == outcomes;
    if ok > 0 {
      return None;
    }
    return lastErr;
  }

  /** PersistingNotifier: keeps a record of each event that the inner notifier delivered. */
  class Persister {
    var records: seq<Event>

    constructor ()
      ensures records == []
    {
      records := [];
    }

    method Notify(event: Event, outcomes: seq<Outcome>) returns (outcome: Outcome)
      modifies this
      ensures outcome == FanoutOutcome(outcomes)
      ensures records == if outcome.None? then old(records) + [event] else old(records)
    {
      outcome := Fanout(outcomes);
      if outcome.Some? {
        return;
      }
      records := records + [event];
    }
  }
}
