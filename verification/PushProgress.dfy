/**
  What the worker achieves once the hub accepts and the disk works: the spool is emptied,
  oldest row first, and then the queue.
 */
module PushProgress {
  import opened Sequences
  import opened SpoolQueue
  import opened PushMachine
  import opened PushInvariant
  import opened PushTheorems

  /** Peek, send and delete one row. */
  function Round(c: Config, s: State): State {
    Apply(c, Apply(c, Apply(c, s, Peek(false)), Attempt(Accepted)), Delete(false))
  }

  /** Many rounds. */
  function Rounds(n: nat): seq<Step> {
    if n == 0 then [] else Rounds(n - 1) + [Peek(false), Attempt(Accepted), Delete(false)]
  }

  function Receipts(items: seq<nat>, path: Path): (receipts: seq<Receipt>)
    ensures |receipts| == |items| && forall i | 0 <= i < |items| :: receipts[i] == Receipt(items[i], path)
  {
    seq(|items|, i requires 0 <= i < |items| => Receipt(items[i], path))
  }

  lemma HeadGone(s: State)
    requires Ordered(s.spool) && s.spool.rows != []
    ensures Without(s.spool.rows, s.spool.rows[0].id) == s.spool.rows[1..] && s.spool.rows[0].id != 0
  {
    WithoutHead(s.spool, s.spool.rows[0].id);
  }

  /** One round sends the oldest row and takes it off the disk. */
  lemma OneRound(c: Config, s: State)
    requires Ordered(s.spool) && s.worker.Peeking? && c.spoolEnabled && s.spool.rows != []
    ensures var s', row := Round(c, s), s.spool.rows[0];
      && s' == s.(spool := s.spool.(rows := s.spool.rows[1..]), received := s.received + [Receipt(row.item, FromSpool)],
                  fate := s'.fate)
      && IsDelivered(s', row.item)
      && forall i | i in s.fate :: i in s'.fate
  {
    var row, held := s.spool.rows[0], s.worker.held;
    var peeked := Apply(c, s, Peek(false));
    assert peeked == s.(worker := SendingSpooled(row, 0, held));
    var sent := Apply(c, peeked, Attempt(Accepted));
    assert sent == s.(worker := Deleting(row, held), received := s.received + [Receipt(row.item, FromSpool)]);
    HeadGone(s);
    assert RemovedById(s.spool.rows, row.id)[0] == row.item;
  }

  lemma Extends(c: Config, s: State, steps: seq<Step>, step: Step)
    ensures ExecFrom(c, s, steps + [step]) == Apply(c, ExecFrom(c, s, steps), step)
  {
  }

  lemma RoundMore(c: Config, s: State, n: nat)
    ensures ExecFrom(c, s, Rounds(n + 1)) == Round(c, ExecFrom(c, s, Rounds(n)))
  {
    var steps := Rounds(n);
    assert Rounds(n + 1) == ((steps + [Peek(false)]) + [Attempt(Accepted)]) + [Delete(false)];
    Extends(c, s, steps, Peek(false));
    Extends(c, s, steps + [Peek(false)], Attempt(Accepted));
    Extends(c, s, (steps + [Peek(false)]) + [Attempt(Accepted)], Delete(false));
  }

  /** The n oldest rows sent, and nothing else moved. */
  ghost predicate RowsSent(s: State, s': State, n: nat)
    requires n <= |s.spool.rows|
  {
    s' == s.(spool := s.spool.(rows := s.spool.rows[n..]),
             received := s.received + Receipts(Items(s.spool.rows[..n]), FromSpool),
             fate := s'.fate)
  }

  lemma OneMoreReceipt(rows: seq<Row>, n: nat)
    requires 0 < n <= |rows|
    ensures Receipts(Items(rows[..n]), FromSpool)
         == Receipts(Items(rows[..n - 1]), FromSpool) + [Receipt(rows[n - 1].item, FromSpool)]
  {
  }

  lemma RoundSendsNext(c: Config, s: State, mid: State, n: nat)
    requires Ordered(mid.spool) && s.worker.Peeking? && c.spoolEnabled && 0 < n <= |s.spool.rows|
    requires RowsSent(s, mid, n - 1)
    ensures RowsSent(s, Round(c, mid), n)
  {
    var rows := s.spool.rows;
    OneRound(c, mid);
    OneMoreReceipt(rows, n);
    assert rows[n - 1..][1..] == rows[n..] && rows[n - 1..][0] == rows[n - 1];
  }

  ghost predicate IsDelivered(s: State, item: nat) {
    item in s.fate && s.fate[item] == Delivered
  }

  ghost predicate RowsDelivered(s: State, s': State, n: nat)
    requires n <= |s.spool.rows|
  {
    forall i | 0 <= i < n :: IsDelivered(s', s.spool.rows[i].item)
  }

  lemma RoundDelivers(c: Config, s: State, mid: State, n: nat, i: nat)
    requires Inv(c, mid) && s.worker.Peeking? && c.spoolEnabled && i < n <= |s.spool.rows|
    requires RowsSent(s, mid, n - 1) && RowsDelivered(s, mid, n - 1)
    ensures IsDelivered(Round(c, mid), s.spool.rows[i].item)
  {
    if i == n - 1 {
      OneRound(c, mid);
      assert mid.spool.rows[0] == s.spool.rows[i];
    } else {
      RoundKeepsFates(c, mid, s.spool.rows[i].item);
    }
  }

  lemma RoundKeepsFates(c: Config, s: State, i: nat)
    requires Inv(c, s) && i in s.fate
    ensures i in Round(c, s).fate && Round(c, s).fate[i] == s.fate[i]
  {
    var peeked := Apply(c, s, Peek(false));
    var sent := Apply(c, peeked, Attempt(Accepted));
    FatesAreFinal(c, s, Peek(false), i);
    StepKeeps(c, s, Peek(false));
    FatesAreFinal(c, peeked, Attempt(Accepted), i);
    StepKeeps(c, peeked, Attempt(Accepted));
    FatesAreFinal(c, sent, Delete(false), i);
  }

  lemma RoundNext(c: Config, s: State, mid: State, n: nat)
    requires Inv(c, mid) && s.worker.Peeking? && c.spoolEnabled && 0 < n <= |s.spool.rows|
    requires RowsSent(s, mid, n - 1) && RowsDelivered(s, mid, n - 1)
    ensures RowsSent(s, Round(c, mid), n) && RowsDelivered(s, Round(c, mid), n)
  {
    RoundSendsNext(c, s, mid, n);
    forall i | 0 <= i < n ensures IsDelivered(Round(c, mid), s.spool.rows[i].item) {
      RoundDelivers(c, s, mid, n, i);
    }
  }

  /** After n rounds the n oldest rows have been received, oldest first, and are gone. */
  lemma {:induction false} RoundsSend(c: Config, s: State, n: nat)
    requires Inv(c, s) && s.worker.Peeking? && c.spoolEnabled && n <= |s.spool.rows|
    ensures RowsSent(s, ExecFrom(c, s, Rounds(n)), n) && RowsDelivered(s, ExecFrom(c, s, Rounds(n)), n)
  {
    if n == 0 {
      assert Receipts(Items(s.spool.rows[..0]), FromSpool) == [];
      assert s.spool.(rows := s.spool.rows[0..]) == s.spool && s.received + [] == s.received;
    } else {
      RoundsSend(c, s, n - 1);
      ExecFromKeeps(c, s, Rounds(n - 1));
      RoundNext(c, s, ExecFrom(c, s, Rounds(n - 1)), n);
      RoundMore(c, s, n - 1);
    }
  }

  /**
    Progress: from any reachable state in which the worker is about to look at the spool, with
    n rows in it, n rounds in which the reads and deletes work and the hub accepts leave the
    spool empty; the hub has then received exactly the rows' snapshots more, oldest first, and
    nothing else has moved.
   */
  lemma SpoolIsEmptied(c: Config, steps: seq<Step>)
    requires Exec(c, steps).worker.Peeking? && c.spoolEnabled
    ensures var s := Exec(c, steps);
      var s' := ExecFrom(c, s, Rounds(|s.spool.rows|));
      && s'.spool.rows == []
      && s'.received == s.received + Receipts(Items(s.spool.rows), FromSpool)
      && s'.queue == s.queue && s'.producer == s.producer && s'.worker == s.worker
      && forall r | r in s.spool.rows :: IsDelivered(s', r.item)
  {
    var s := Exec(c, steps);
    RunInv(c, steps);
    RoundsSend(c, s, |s.spool.rows|);
    assert s.spool.rows[..|s.spool.rows|] == s.spool.rows;
  }

  // ---------- And then the queue ----------

  /** Takes the oldest snapshot of the queue, finds the spool empty, and sends it. */
  function TurnAround(c: Config, s: State): State {
    Apply(c, Apply(c, Apply(c, s, Take), Peek(false)), Attempt(Accepted))
  }

  function TurnsAround(n: nat): seq<Step> {
    if n == 0 then [] else TurnsAround(n - 1) + [Take, Peek(false), Attempt(Accepted)]
  }

  lemma OneTurn(c: Config, s: State)
    requires s.worker.Selecting? && s.queue != [] && (c.spoolEnabled ==> s.spool.rows == [])
    ensures TurnAround(c, s) == s.(queue := s.queue[1..], received := s.received + [Receipt(s.queue[0], FromQueue)],
                                   fate := s.fate[s.queue[0] := Delivered])
  {
    var taken := Apply(c, s, Take);
    assert taken == s.(queue := s.queue[1..], worker := Peeking(Some(s.queue[0])));
    var flushing := Apply(c, taken, Peek(false));
    assert flushing == taken.(worker := Flushing(s.queue[0], 0));
    assert Marked(s.fate, [s.queue[0]], Delivered) == s.fate[s.queue[0] := Delivered];
  }

  lemma TurnMore(c: Config, s: State, n: nat)
    ensures ExecFrom(c, s, TurnsAround(n + 1)) == TurnAround(c, ExecFrom(c, s, TurnsAround(n)))
  {
    var steps := TurnsAround(n);
    assert TurnsAround(n + 1) == ((steps + [Take]) + [Peek(false)]) + [Attempt(Accepted)];
    Extends(c, s, steps, Take);
    Extends(c, s, steps + [Take], Peek(false));
    Extends(c, s, (steps + [Take]) + [Peek(false)], Attempt(Accepted));
  }

  /** The n oldest snapshots of the queue sent, and nothing else moved. */
  ghost predicate QueueSent(s: State, s': State, n: nat)
    requires n <= |s.queue|
  {
    && s' == s.(queue := s.queue[n..], received := s.received + Receipts(s.queue[..n], FromQueue), fate := s'.fate)
    && forall i | 0 <= i < n :: IsDelivered(s', s.queue[i])
  }

  lemma TurnSendsNext(c: Config, s: State, mid: State, n: nat)
    requires s.worker.Selecting? && 0 < n <= |s.queue| && (c.spoolEnabled ==> s.spool.rows == [])
    requires QueueSent(s, mid, n - 1)
    ensures QueueSent(s, TurnAround(c, mid), n)
  {
    OneTurn(c, mid);
    assert mid.queue[1..] == s.queue[n..] && mid.queue[0] == s.queue[n - 1];
    assert Receipts(s.queue[..n], FromQueue)
        == Receipts(s.queue[..n - 1], FromQueue) + [Receipt(s.queue[n - 1], FromQueue)];
  }

  /** After n turns the n oldest snapshots of the queue have been received, oldest first. */
  lemma {:induction false} TurnsSend(c: Config, s: State, n: nat)
    requires s.worker.Selecting? && n <= |s.queue| && (c.spoolEnabled ==> s.spool.rows == [])
    ensures QueueSent(s, ExecFrom(c, s, TurnsAround(n)), n)
  {
    if n == 0 {
      assert Receipts(s.queue[..0], FromQueue) == [];
      assert s.queue[0..] == s.queue && s.received + [] == s.received;
    } else {
      TurnsSend(c, s, n - 1);
      TurnMore(c, s, n - 1);
      TurnSendsNext(c, s, ExecFrom(c, s, TurnsAround(n - 1)), n);
    }
  }

  /**
    Progress of the queue: with nothing in the spool and a hub that accepts, as many turns of
    the select loop as there are snapshots queued leave the queue empty; the hub has then
    received exactly these, oldest first.
   */
  lemma QueueIsEmptied(c: Config, steps: seq<Step>)
    requires var s := Exec(c, steps); s.worker.Selecting? && (c.spoolEnabled ==> s.spool.rows == [])
    ensures var s := Exec(c, steps);
      var s' := ExecFrom(c, s, TurnsAround(|s.queue|));
      && s'.queue == [] && s'.spool == s.spool && s'.worker.Selecting? && s'.producer == s.producer
      && s'.received == s.received + Receipts(s.queue, FromQueue)
      && forall i | i in s.queue :: IsDelivered(s', i)
  {
    var s := Exec(c, steps);
    TurnsSend(c, s, |s.queue|);
    assert s.queue[..|s.queue|] == s.queue;
  }

  /** What the worker does when the hub is back: rounds over the spool, a last look at it, turns over the queue. */
  function CatchUp(c: Config, s: State): State {
    ExecFrom(c, Apply(c, ExecFrom(c, s, Rounds(|s.spool.rows|)), Peek(false)), TurnsAround(|s.queue|))
  }

  lemma CaughtUp(c: Config, s: State)
    requires Inv(c, s) && s.worker == Peeking(None) && s.producer.Idle? && c.spoolEnabled
    ensures var s' := CatchUp(c, s);
      && Inv(c, s') && s'.spool.rows == [] && s'.queue == [] && s'.producer.Idle? && s'.worker.Selecting?
      && s'.produced == s.produced
      && s'.received == s.received + Receipts(Items(s.spool.rows), FromSpool) + Receipts(s.queue, FromQueue)
  {
    var n, q := |s.spool.rows|, |s.queue|;
    RoundsSend(c, s, n);
    assert s.spool.rows[..n] == s.spool.rows && s.queue[..q] == s.queue;
    var emptied := ExecFrom(c, s, Rounds(n));
    var selecting := Apply(c, emptied, Peek(false));
    assert selecting == emptied.(worker := Selecting);
    TurnsSend(c, selecting, q);
    ExecFromKeeps(c, s, Rounds(n));
    StepKeeps(c, emptied, Peek(false));
    ExecFromKeeps(c, selecting, TurnsAround(q));
  }

  /**
    Once the hub is back nothing stays behind: from any reachable state with the worker at the
    spool and the producer idle, the worker's own steps bring every snapshot produced so far to
    its fate, and the hub receives the spooled ones and then the queued ones, each in order.
   */
  lemma HubBackGetsAll(c: Config, steps: seq<Step>)
    requires var s := Exec(c, steps); s.worker == Peeking(None) && s.producer.Idle? && c.spoolEnabled
    ensures var s, s' := Exec(c, steps), CatchUp(c, Exec(c, steps));
      && s'.received == s.received + Receipts(Items(s.spool.rows), FromSpool) + Receipts(s.queue, FromQueue)
      && s'.spool.rows == [] && s'.queue == []
      && forall i: nat :: i < s.produced <==> i in s'.fate
  {
    RunInv(c, steps);
    CaughtUp(c, Exec(c, steps));
  }

  // ---------- At least once ----------

  /** The first snapshot on its way to its first attempt. */
  lemma FirstFlush(c: Config) returns (steps: seq<Step>)
    ensures Exec(c, steps).worker == Flushing(0, 0) && Exec(c, steps).received == []
  {
    var a := [] + [Produce];
    Extends(c, INIT, [], Produce);
    assert Exec(c, a) == INIT.(producer := Sending(0, 0, 0), produced := 1);
    var b := a + [TrySend];
    Extends(c, INIT, a, TrySend);
    assert Exec(c, b).queue == [] + [0] && Exec(c, b).spool.rows == [] && Exec(c, b).received == [];
    var d := b + [Peek(false)];
    Extends(c, INIT, b, Peek(false));
    var e := d + [Take];
    Extends(c, INIT, d, Take);
    steps := e + [Peek(false)];
    Extends(c, INIT, e, Peek(false));
  }

  /** A lost reply makes the hub receive a snapshot twice, so its writes have to bear repeats. */
  lemma LostReplyRepeats(c: Config)
    ensures exists steps :: Exec(c, steps).received == [Receipt(0, FromQueue), Receipt(0, FromQueue)]
  {
    var steps := FirstFlush(c);
    Extends(c, INIT, steps, Attempt(AcceptedReplyLost));
    var again := steps + [Attempt(AcceptedReplyLost)];
    assert Exec(c, again).worker.Flushing? && Exec(c, again).received == [Receipt(0, FromQueue)];
    Extends(c, INIT, again, Attempt(Accepted));
    assert Exec(c, again + [Attempt(Accepted)]).received == [Receipt(0, FromQueue)] + [Receipt(0, FromQueue)];
  }
}
