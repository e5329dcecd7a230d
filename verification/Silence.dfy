/**
  Alert silences: entries pruned, extended and looked up in place, against the plain log of
  all the silences ever asked for.
 */
module Silence {
  import opened Sequences

  /** Mutes one agent and rule until a moment; the empty rule stands for all rules. */
  datatype Entry = Entry(agent: string, rule: string, until: int, created: int)

  /** One silence as asked for: the log keeps these and nothing else. */
  datatype Window = Window(agent: string, rule: string, start: int, end: int)

  // ---------- What the store computes ----------

  /** The entries that end after `now`. */
  function Prune(entries: seq<Entry>, now: int): seq<Entry> {
    if entries == [] then []
    else
      var last := entries[|entries| - 1];
      Prune(entries[..|entries| - 1], now) + (if last.until > now then [last] else [])
  }

  /** The index of the entry of an agent and rule, or the number of entries. */
  function Find(entries: seq<Entry>, agent: string, rule: string): (i: nat)
    ensures i <= |entries|
    ensures i < |entries| ==> entries[i].agent == agent && entries[i].rule == rule
    ensures forall j | 0 <= j < i :: !(entries[j].agent == agent && entries[j].rule == rule)
  {
    if entries == [] then 0
    else if entries[0].agent == agent && entries[0].rule == rule then 0
    else 1 + Find(entries[1..], agent, rule)
  }

  /** The new entry, reaching as far as an earlier one did in both directions. */
  function Merged(earlier: Entry, entry: Entry): Entry {
    Entry(
      entry.agent,
      entry.rule,
      if earlier.until > entry.until then earlier.until else entry.until,
      if earlier.created < entry.created then earlier.created else entry.created)
  }

  function Added(entries: seq<Entry>, entry: Entry): Entry {
    var i := Find(entries, entry.agent, entry.rule);
    if i < |entries| then Merged(entries[i], entry) else entry
  }

  function Extended(entries: seq<Entry>, entry: Entry): seq<Entry> {
    var i := Find(entries, entry.agent, entry.rule);
    if i < |entries| then entries[i := Added(entries, entry)] else entries + [entry]
  }

  predicate Mutes(e: Entry, agent: string, rule: string, now: int) {
    e.agent == agent && (e.rule == "" || e.rule == rule) && e.until > now
  }

  /** Nanoseconds of an hour, for a silence asked for without a positive duration. */
  const HOUR := 3_600_000_000_000

  function Length(duration: int): int {
    if duration <= 0 then HOUR else duration
  }

  // ---------- Runs ----------

  /** A save or a read of the saved setting may fail; a load follows a restart of the hub. */
  datatype Op =
    | Add(agent: string, rule: string, duration: int, now: int, saves: bool)
    | Look(now: int)
    | Load(now: int, readable: bool)

  /**
    The entries and the saved setting, the clock, and for stating what must hold the log
    behind each of the two, the log of every silence ever asked for, and whether a load
    ever came when the latest save had failed or failed itself.
   */
  datatype World = World(
    entries: seq<Entry>,
    saved: seq<Entry>,
    clock: int,
    log: seq<Window>,
    savedLog: seq<Window>,
    asked: seq<Window>,
    forgot: bool)

  const START := World([], [], 0, [], [], [], false)

  /** The entry for one window. */
  function EntryFor(w: Window): Entry {
    Entry(w.agent, w.rule, w.end, w.start)
  }

  function NewWindow(op: Op): Window
    requires op.Add?
  {
    Window(op.agent, op.rule, op.now, op.now + Length(op.duration))
  }

  function AfterAdd(w: World, op: Op): World
    requires op.Add?
  {
    var entries, log := Extended(Prune(w.entries, op.now), EntryFor(NewWindow(op))), w.log + [NewWindow(op)];
    World(
      entries,
      if op.saves then entries else w.saved,
      op.now,
      log,
      if op.saves then log else w.savedLog,
      w.asked + [NewWindow(op)],
      w.forgot)
  }

  function AfterLoad(w: World, now: int, readable: bool): World {
    w.(entries := if readable then Prune(w.saved, now) else [],
       clock := now,
       log := if readable then w.savedLog else [],
       forgot := w.forgot || !readable || w.savedLog != w.log)
  }

  /** An operation with a clock reading from the past does not belong to a run and changes nothing. */
  function Apply(w: World, op: Op): World {
    if op.now < w.clock then w
    else
      match op
      case Add(_, _, _, _, _) => AfterAdd(w, op)
      case Look(now) => w.(entries := Prune(w.entries, now), clock := now)
      case Load(now, readable) => AfterLoad(w, now, readable)
  }

  /** The operations are what the store's methods do to its entries and its saved setting. */
  lemma StepsAreTheMethods(w: World, op: Op)
    requires w.clock <= op.now
    ensures var w' := Apply(w, op);
      match op
      case Add(agent, rule, duration, now, saves) =>
        && w'.entries == Extended(Prune(w.entries, now), Entry(agent, rule, now + Length(duration), now))
        && w'.saved == if saves then w'.entries else w.saved
      case Look(now) => w'.entries == Prune(w.entries, now) && w'.saved == w.saved
      case Load(now, readable) => w'.entries == (if readable then Prune(w.saved, now) else []) && w'.saved == w.saved
  {
  }

  function Exec(ops: seq<Op>): World {
    if ops == [] then START else Apply(Exec(ops[..|ops| - 1]), ops[|ops| - 1])
  }

  // ---------- What the entries remember of the log ----------

  predicate SameKey(a: Entry, b: Entry) {
    a.agent == b.agent && a.rule == b.rule
  }

  predicate Of(e: Entry, w: Window) {
    e.agent == w.agent && e.rule == w.rule
  }

  ghost predicate Unique(entries: seq<Entry>) {
    forall i, j | 0 <= i < j < |entries| :: !SameKey(entries[i], entries[j])
  }

  /** Some window of the entry's key that opened since the entry was created holds a moment. */
  ghost predicate Covered(log: seq<Window>, e: Entry, t: int) {
    exists w :: w in log && Of(e, w) && e.created <= w.start <= t < w.end
  }

  /** The stretch from the entry's creation to its end is the union of the windows opened in it. */
  ghost predicate GapFree(log: seq<Window>, e: Entry) {
    forall t :: e.created <= t < e.until <==> Covered(log, e, t)
  }

  ghost predicate EndsLast(log: seq<Window>, e: Entry) {
    && (exists w :: w in log && Of(e, w) && w.end == e.until)
    && (forall w | w in log && Of(e, w) :: w.end <= e.until)
  }

  ghost predicate Explained(log: seq<Window>, clock: int, e: Entry) {
    e.created <= clock && e.created < e.until && GapFree(log, e) && EndsLast(log, e)
  }

  ghost predicate HasEntry(entries: seq<Entry>, w: Window) {
    exists e :: e in entries && Of(e, w)
  }

  ghost predicate Remembers(entries: seq<Entry>, log: seq<Window>, clock: int) {
    && Unique(entries)
    && (forall e | e in entries :: Explained(log, clock, e))
    && (forall w | w in log && w.end > clock :: HasEntry(entries, w))
    && (forall w | w in log :: w.start <= clock && w.start < w.end)
  }

  ghost predicate Inv(w: World) {
    && Remembers(w.entries, w.log, w.clock)
    && Remembers(w.saved, w.savedLog, w.clock)
    && (!w.forgot ==> w.log == w.asked)
  }

  lemma {:induction false} PruneMembers(entries: seq<Entry>, now: int, e: Entry)
    ensures e in Prune(entries, now) <==> e in entries && e.until > now
  {
    if entries != [] {
      var n := |entries| - 1;
      PruneMembers(entries[..n], now, e);
      assert entries == entries[..n] + [entries[n]];
    }
  }

  /** Pruning keeps exactly the live entries, in the order they were in. */
  lemma {:induction false} PruneMeans(entries: seq<Entry>, now: int)
    ensures Subsequence(Prune(entries, now), entries)
    ensures forall e :: e in Prune(entries, now) <==> e in entries && e.until > now
  {
    forall e ensures e in Prune(entries, now) <==> e in entries && e.until > now {
      PruneMembers(entries, now, e);
    }
    if entries != [] {
      var n := |entries| - 1;
      var front, last := entries[..n], entries[n];
      assert entries == front + [last];
      PruneMeans(front, now);
      SkipLast(Prune(front, now), front, last);
      KeepLast(Prune(front, now), front, last);
      assert Prune(front, now) + [] == Prune(front, now);
    }
  }

  lemma {:induction false} PruneUnique(entries: seq<Entry>, now: int)
    requires Unique(entries)
    ensures Unique(Prune(entries, now))
  {
    if entries != [] {
      var n := |entries| - 1;
      PruneUnique(entries[..n], now);
      forall e | e in Prune(entries[..n], now) ensures !SameKey(e, entries[n]) {
        PruneMembers(entries[..n], now, e);
      }
    }
  }

  lemma PruneRemembers(entries: seq<Entry>, log: seq<Window>, clock: int, now: int)
    requires Remembers(entries, log, clock) && clock <= now
    ensures Remembers(Prune(entries, now), log, now)
  {
    PruneUnique(entries, now);
    forall e | e in Prune(entries, now) ensures Explained(log, now, e) {
      PruneMembers(entries, now, e);
    }
    forall w | w in log && w.end > now ensures HasEntry(Prune(entries, now), w) {
      var e :| e in entries && Of(e, w);
      PruneMembers(entries, now, e);
    }
  }

  // ---------- A new silence ----------

  /** An added silence leaves the entries of other keys alone and one entry for its own. */
  lemma ExtendedMembers(entries: seq<Entry>, entry: Entry, e: Entry)
    requires Unique(entries)
    ensures e in Extended(entries, entry)
       <==> e == Added(entries, entry) || (e in entries && !SameKey(e, entry))
  {
    var i := Find(entries, entry.agent, entry.rule);
    if i < |entries| {
      var entries' := entries[i := Added(entries, entry)];
      if e in entries && !SameKey(e, entry) {
        var j :| 0 <= j < |entries| && entries[j] == e;
        assert entries'[j] == e;
      }
      if e == Added(entries, entry) {
        assert entries'[i] == e;
      }
    } else {
      assert Added(entries, entry) in entries + [entry];
    }
  }

  lemma ExtendedUnique(entries: seq<Entry>, entry: Entry)
    requires Unique(entries)
    ensures Unique(Extended(entries, entry))
  {
  }

  lemma CoveredGrows(log: seq<Window>, w: Window, e: Entry, t: int)
    ensures Covered(log + [w], e, t) <==> Covered(log, e, t) || (Of(e, w) && e.created <= w.start <= t < w.end)
  {
  }

  /** A window of another key changes nothing for an entry. */
  lemma OtherKeyKeeps(log: seq<Window>, w: Window, clock: int, e: Entry)
    requires Explained(log, clock, e) && !Of(e, w)
    ensures Explained(log + [w], clock, e)
  {
    forall t ensures e.created <= t < e.until <==> Covered(log + [w], e, t) {
      CoveredGrows(log, w, e, t);
    }
    var v :| v in log && Of(e, v) && v.end == e.until;
    assert v in log + [w];
  }

  /** Extending a live entry leaves no gap: the new window opens before the old ones have ended. */
  lemma MergedExplained(log: seq<Window>, w: Window, clock: int, e: Entry)
    requires Explained(log, clock, e) && Of(e, w)
    requires w.start == clock && clock < w.end && clock < e.until
    ensures Explained(log + [w], clock, Merged(e, EntryFor(w)))
  {
    var m := Merged(e, EntryFor(w));
    forall t ensures m.created <= t < m.until <==> Covered(log + [w], m, t) {
      CoveredGrows(log, w, m, t);
      assert Covered(log, m, t) <==> Covered(log, e, t);
    }
    var v :| v in log && Of(e, v) && v.end == e.until;
    assert v in log + [w] && w in log + [w];
  }

  /** A first entry for its key: no earlier window of the key is still open. */
  lemma FreshExplained(log: seq<Window>, w: Window, clock: int)
    requires forall v | v in log && v.agent == w.agent && v.rule == w.rule :: v.start < v.end <= clock
    requires w.start == clock && clock < w.end
    ensures Explained(log + [w], clock, EntryFor(w))
  {
  }

  lemma AddedExplained(entries: seq<Entry>, log: seq<Window>, now: int, w: Window)
    requires Remembers(entries, log, now) && (forall e | e in entries :: e.until > now)
    requires w.start == now && now < w.end
    ensures Explained(log + [w], now, Added(entries, EntryFor(w)))
  {
    var i := Find(entries, w.agent, w.rule);
    if i < |entries| {
      assert entries[i] in entries;
      MergedExplained(log, w, now, entries[i]);
    } else {
      forall v | v in log && v.agent == w.agent && v.rule == w.rule ensures v.start < v.end <= now {
        assert v.end > now ==> HasEntry(entries, v);
      }
      FreshExplained(log, w, now);
    }
  }

  lemma ExtendedHas(entries: seq<Entry>, entry: Entry, v: Window)
    requires Unique(entries)
    requires HasEntry(entries, v) || (v.agent == entry.agent && v.rule == entry.rule)
    ensures HasEntry(Extended(entries, entry), v)
  {
    if v.agent == entry.agent && v.rule == entry.rule {
      ExtendedMembers(entries, entry, Added(entries, entry));
      assert Of(Added(entries, entry), v);
    } else {
      var e :| e in entries && Of(e, v);
      ExtendedMembers(entries, entry, e);
    }
  }

  lemma ExtendRemembers(entries: seq<Entry>, log: seq<Window>, now: int, w: Window)
    requires Remembers(entries, log, now) && (forall e | e in entries :: e.until > now)
    requires w.start == now && now < w.end
    ensures Remembers(Extended(entries, EntryFor(w)), log + [w], now)
  {
    var entry := EntryFor(w);
    ExtendedUnique(entries, entry);
    forall e | e in Extended(entries, entry) ensures Explained(log + [w], now, e) {
      ExtendedMembers(entries, entry, e);
      if e == Added(entries, entry) {
        AddedExplained(entries, log, now, w);
      } else {
        OtherKeyKeeps(log, w, now, e);
      }
    }
    forall v | v in log + [w] && v.end > now ensures HasEntry(Extended(entries, entry), v) {
      ExtendedHas(entries, entry, v);
    }
  }

  // ---------- Every run ----------

  lemma Later(entries: seq<Entry>, log: seq<Window>, clock: int, now: int)
    requires Remembers(entries, log, clock) && clock <= now
    ensures Remembers(entries, log, now)
  {
  }

  lemma AddRemembers(entries: seq<Entry>, log: seq<Window>, clock: int, now: int, w: Window)
    requires Remembers(entries, log, clock) && clock <= now
    requires w.start == now && now < w.end
    ensures Remembers(Extended(Prune(entries, now), EntryFor(w)), log + [w], now)
  {
    var live := Prune(entries, now);
    PruneRemembers(entries, log, clock, now);
    forall e | e in live ensures e.until > now {
      PruneMembers(entries, now, e);
    }
    ExtendRemembers(live, log, now, w);
  }

  lemma AddKeepsEntries(w: World, op: Op)
    requires Remembers(w.entries, w.log, w.clock) && op.Add? && w.clock <= op.now
    ensures var w' := AfterAdd(w, op); Remembers(w'.entries, w'.log, op.now)
  {
    AddRemembers(w.entries, w.log, w.clock, op.now, NewWindow(op));
  }

  lemma AddKeeps(w: World, op: Op)
    requires Inv(w) && op.Add? && w.clock <= op.now
    ensures Inv(AfterAdd(w, op))
  {
    AddKeepsEntries(w, op);
    if !op.saves {
      Later(w.saved, w.savedLog, w.clock, op.now);
    }
  }

  lemma LoadKeeps(w: World, now: int, readable: bool)
    requires Inv(w) && w.clock <= now
    ensures Inv(AfterLoad(w, now, readable))
  {
    PruneRemembers(w.saved, w.savedLog, w.clock, now);
    Later(w.saved, w.savedLog, w.clock, now);
  }

  lemma StepKeeps(w: World, op: Op)
    requires Inv(w)
    ensures Inv(Apply(w, op))
  {
    if w.clock <= op.now {
      match op
      case Add(_, _, _, _, _) => AddKeeps(w, op);
      case Look(now) =>
        PruneRemembers(w.entries, w.log, w.clock, now);
        Later(w.saved, w.savedLog, w.clock, now);
      case Load(now, readable) => LoadKeeps(w, now, readable);
    }
  }

  lemma {:induction false} RunInv(ops: seq<Op>)
    ensures Inv(Exec(ops))
  {
    if ops != [] {
      RunInv(ops[..|ops| - 1]);
      StepKeeps(Exec(ops[..|ops| - 1]), ops[|ops| - 1]);
    }
  }

  /** Some silence asked for the agent, for this rule or for all rules, ends after `now`. */
  ghost predicate Muted(log: seq<Window>, agent: string, rule: string, now: int) {
    exists w :: w in log && w.agent == agent && (w.rule == "" || w.rule == rule) && w.end > now
  }

  ghost predicate Answer(entries: seq<Entry>, agent: string, rule: string, now: int) {
    exists e :: e in entries && Mutes(e, agent, rule, now)
  }

  lemma AnswerIsLog(entries: seq<Entry>, log: seq<Window>, agent: string, rule: string, now: int)
    requires forall e | e in entries :: EndsLast(log, e)
    requires forall w | w in log && w.end > now :: HasEntry(entries, w)
    ensures Answer(entries, agent, rule, now) <==> Muted(log, agent, rule, now)
  {
  }

  /**
    The silence store refines the log: after any run, with saves and loads that may fail,
    the answer is exactly that of the silences asked for since the last load and those
    saved before it, which are all silences ever asked for unless a load failed or
    followed a failed save.
   */
  lemma SilenceRefinesLog(ops: seq<Op>, agent: string, rule: string, now: int)
    requires Exec(ops).clock <= now
    ensures var w := Exec(ops);
      && (Answer(w.entries, agent, rule, now) <==> Muted(w.log, agent, rule, now))
      && (!w.forgot ==> (Answer(w.entries, agent, rule, now) <==> Muted(w.asked, agent, rule, now)))
  {
    RunInv(ops);
    AnswerIsLog(Exec(ops).entries, Exec(ops).log, agent, rule, now);
  }

  // ---------- The answer, by what was asked ----------

  lemma ExecExtends(ops: seq<Op>, op: Op)
    ensures Exec(ops + [op]) == Apply(Exec(ops), op)
  {
  }

  /** The i-th operation asks for a silence, with a clock reading that is not from the past. */
  ghost predicate Asks(ops: seq<Op>, i: nat)
    requires i < |ops|
  {
    ops[i].Add? && Exec(ops[..i]).clock <= ops[i].now
  }

  /** A silence asked for lasts for its duration, or an hour if that is not positive. */
  function EndOf(op: Op): int
    requires op.Add?
  {
    if op.duration > 0 then op.now + op.duration else op.now + 3_600_000_000_000
  }

  /** It is about the agent, and this rule or all rules, and ends later. */
  predicate Covers(op: Op, agent: string, rule: string, now: int) {
    op.Add? && op.agent == agent && (op.rule == "" || op.rule == rule) && now < EndOf(op)
  }

  lemma {:induction false} AskedAre(ops: seq<Op>, w: Window)
    ensures w in Exec(ops).asked <==> exists i :: 0 <= i < |ops| && Asks(ops, i) && NewWindow(ops[i]) == w
  {
    if ops != [] {
      var front, op := ops[..|ops| - 1], ops[|ops| - 1];
      AskedAre(front, w);
      forall i | 0 <= i < |front| ensures Asks(ops, i) == Asks(front, i) && ops[i] == front[i] {
        assert ops[..i] == front[..i];
      }
      AskedMore(front, op, w);
      if i :| 0 <= i < |front| && Asks(front, i) && NewWindow(front[i]) == w {
        assert Asks(ops, i) && NewWindow(ops[i]) == w;
      }
      if w in Exec(ops).asked && w !in Exec(front).asked {
        assert Asks(ops, |front|) && NewWindow(ops[|front|]) == w;
      }
    }
  }

  lemma AskedMore(front: seq<Op>, op: Op, w: Window)
    ensures var before, after := Exec(front), Apply(Exec(front), op);
      w in after.asked <==> w in before.asked || (op.Add? && before.clock <= op.now && NewWindow(op) == w)
  {
  }

  /**
    What is asked is what is muted: after any run an agent and rule are silenced at a moment
    exactly if some silence was asked for the agent, and for this rule or all rules, that ends
    later, unless a load failed or followed a failed save.
   */
  lemma SilencedIff(ops: seq<Op>, agent: string, rule: string, now: int)
    requires Exec(ops).clock <= now && !Exec(ops).forgot
    ensures Answer(Exec(ops).entries, agent, rule, now) <==>
      exists i :: 0 <= i < |ops| && Asks(ops, i) && Covers(ops[i], agent, rule, now)
  {
    SilenceRefinesLog(ops, agent, rule, now);
    MutedByAsked(ops, agent, rule, now);
  }

  lemma MutedByAsked(ops: seq<Op>, agent: string, rule: string, now: int)
    ensures Muted(Exec(ops).asked, agent, rule, now) <==>
      exists i :: 0 <= i < |ops| && Asks(ops, i) && Covers(ops[i], agent, rule, now)
  {
    if Muted(Exec(ops).asked, agent, rule, now) {
      var w :| w in Exec(ops).asked && w.agent == agent && (w.rule == "" || w.rule == rule) && w.end > now;
      AskedAre(ops, w);
    }
    if i :| 0 <= i < |ops| && Asks(ops, i) && Covers(ops[i], agent, rule, now) {
      AskedAre(ops, NewWindow(ops[i]));
    }
  }

  /**
    A silence lasts as long as it was asked for: after `Add` every answer before its end is
    yes, and if nothing else was asked that covers the rule, every answer from its end on is no.
   */
  lemma SilencedUntil(ops: seq<Op>, i: nat, agent: string, rule: string, now: int)
    requires Exec(ops).clock <= now && !Exec(ops).forgot
    requires i < |ops| && Asks(ops, i) && ops[i].agent == agent && (ops[i].rule == "" || ops[i].rule == rule)
    ensures now < EndOf(ops[i]) ==> Answer(Exec(ops).entries, agent, rule, now)
    ensures EndOf(ops[i]) <= now
         && (forall j | 0 <= j < |ops| && j != i && ops[j].Add? && ops[j].agent == agent ::
               ops[j].rule != "" && ops[j].rule != rule)
         ==> !Answer(Exec(ops).entries, agent, rule, now)
  {
    SilencedIff(ops, agent, rule, now);
  }

  /** In every run an entry is one gap-free union of the windows opened since its creation, one entry a key. */
  lemma EntriesAreUnions(ops: seq<Op>)
    ensures var w := Exec(ops);
      Unique(w.entries) && forall e | e in w.entries :: GapFree(w.log, e) && EndsLast(w.log, e)
  {
    RunInv(ops);
  }

  /** After a save that worked, a load changes no answer, then or later. */
  lemma ReloadChangesNothing(ops: seq<Op>, agent: string, rule: string, loaded: int, now: int)
    requires Exec(ops).clock <= loaded <= now && Exec(ops).savedLog == Exec(ops).log
    ensures var w, w' := Exec(ops), Exec(ops + [Load(loaded, true)]);
      Answer(w'.entries, agent, rule, now) <==> Answer(w.entries, agent, rule, now)
  {
    var ops' := ops + [Load(loaded, true)];
    assert ops'[..|ops|] == ops;
    SilenceRefinesLog(ops, agent, rule, now);
    SilenceRefinesLog(ops', agent, rule, now);
  }

  /** The listed entries are exactly the keys with a silence still open, each listed once. */
  lemma ListedAreOpen(ops: seq<Op>, now: int, agent: string, rule: string)
    requires Exec(ops).clock <= now
    ensures var w := Exec(ops);
      && Unique(Prune(w.entries, now))
      && ((exists e :: e in Prune(w.entries, now) && e.agent == agent && e.rule == rule)
          <==> (exists v :: v in w.log && v.agent == agent && v.rule == rule && v.end > now))
  {
    var w := Exec(ops);
    RunInv(ops);
    PruneRemembers(w.entries, w.log, w.clock, now);
    if e :| e in Prune(w.entries, now) && e.agent == agent && e.rule == rule {
      PruneMembers(w.entries, now, e);
      var v :| v in w.log && Of(e, v) && v.end == e.until;
    }
    if v :| v in w.log && v.agent == agent && v.rule == rule && v.end > now {
      assert HasEntry(Prune(w.entries, now), v);
    }
  }

  // ---------- The store ----------

  lemma FindIs(entries: seq<Entry>, agent: string, rule: string, i: nat)
    requires i <= |entries|
    requires i < |entries| ==> entries[i].agent == agent && entries[i].rule == rule
    requires forall j | 0 <= j < i :: !(entries[j].agent == agent && entries[j].rule == rule)
    ensures Find(entries, agent, rule) == i
  {
  }

  /**
    The entry of an added silence reaches to the end asked for, or as far as the live entry of
    its pair did, and is as old as that; the live entries of other pairs stay, and no others.
   */
  ghost predicate AddedWell(before: seq<Entry>, after: seq<Entry>, entry: Entry, agent: string, rule: string,
                            end: int, now: int) {
    && entry.agent == agent && entry.rule == rule && entry.until >= end && entry.created <= now
    && ((forall e | e in before && e.agent == agent && e.rule == rule :: e.until <= now) ==>
          entry.until == end && entry.created == now)
    && (Unique(before) ==>
          && (forall e | e in before && e.agent == agent && e.rule == rule && e.until > now ::
                && entry.until == (if e.until > end then e.until else end)
                && entry.created == (if e.created < now then e.created else now))
          && (forall e :: e in after <==>
                e == entry || (e in before && e.until > now && !(e.agent == agent && e.rule == rule))))
  }

  /** The live entry of a pair is found, and it is the only one. */
  lemma LiveEntry(entries: seq<Entry>, agent: string, rule: string, now: int)
    ensures var live := Prune(entries, now);
      var i := Find(live, agent, rule);
      && (i < |live| ==> live[i] in entries && live[i].until > now)
      && (forall e | e in entries && e.agent == agent && e.rule == rule && e.until > now ::
            i < |live| && (Unique(entries) ==> live[i] == e))
  {
    var live := Prune(entries, now);
    var i := Find(live, agent, rule);
    if i < |live| {
      PruneMembers(entries, now, live[i]);
    }
    forall e | e in entries && e.agent == agent && e.rule == rule && e.until > now
      ensures i < |live| && (Unique(entries) ==> live[i] == e)
    {
      PruneMembers(entries, now, e);
      if Unique(entries) {
        PruneUnique(entries, now);
      }
    }
  }

  lemma LiveMembers(entries: seq<Entry>, asked: Entry, now: int)
    requires Unique(entries)
    ensures var live := Prune(entries, now);
      forall e :: e in Extended(live, asked) <==>
        e == Added(live, asked) || (e in entries && e.until > now && !(e.agent == asked.agent && e.rule == asked.rule))
  {
    var live := Prune(entries, now);
    PruneUnique(entries, now);
    forall e
      ensures e in Extended(live, asked) <==>
        e == Added(live, asked) || (e in entries && e.until > now && !(e.agent == asked.agent && e.rule == asked.rule))
    {
      ExtendedMembers(live, asked, e);
      PruneMembers(entries, now, e);
    }
  }

  lemma AddedMeans(entries: seq<Entry>, asked: Entry, now: int)
    requires asked.created == now
    ensures var live := Prune(entries, now);
      AddedWell(entries, Extended(live, asked), Added(live, asked), asked.agent, asked.rule, asked.until, now)
  {
    LiveEntry(entries, asked.agent, asked.rule, now);
    if Unique(entries) {
      LiveMembers(entries, asked, now);
    }
  }

  /** SilenceStore, with the hub setting it is saved to. */
  class SilenceStore {
    var entries: seq<Entry>
    var saved: seq<Entry>

    /** LoadSilenceStore: `setting` is what the hub settings hold, if they can be read. */
    constructor Load(setting: seq<Entry>, readable: bool, now: int)
      ensures saved == setting && entries == if readable then Prune(setting, now) else []
    {
      saved := setting;
      entries := if readable then setting else [];
      new;
      PruneLocked(now);
    }

    /** Compacts the entries, keeping the live ones in order. */
    method PruneLocked(now: int)
      modifies this`entries
      ensures entries == Prune(old(entries), now)
    {
      if |entries| == 0 {
        return;
      }
      var kept := [];
      var i := 0;
      while i < |entries|
        invariant 0 <= i <= |entries| && entries == old(entries)
        invariant kept == Prune(entries[..i], now)
      {
        assert entries[..i + 1][..i] == entries[..i];
        if entries[i].until > now {
          kept := kept + [entries[i]];
        }
        i := i + 1;
      }
      assert entries[..i] == entries;
      entries := kept;
    }

    /**
      Creates or extends a silence; `saves` tells whether the setting can be written.  The entry
      lasts at least as long as was asked for, an hour without a positive duration, and no
      longer unless an earlier one of the pair does; other pairs keep their live entries.
     */
    method Add(agent: string, rule: string, duration: int, now: int, saves: bool) returns (entry: Entry, ok: bool)
      modifies this
      ensures var live, asked := Prune(old(entries), now), Entry(agent, rule, now + Length(duration), now);
        entries == Extended(live, asked) && entry == Added(live, asked)
      ensures AddedWell(old(entries), entries, entry, agent, rule,
                        if duration > 0 then now + duration else now + 3_600_000_000_000, now)
      ensures ok == saves && saved == if saves then entries else old(saved)
    {
      var length := if duration <= 0 then HOUR else duration;
      entry := Entry(agent, rule, now + length, now);
      AddedMeans(entries, entry, now);
      PruneLocked(now);
      var i := 0;
      while i < |entries|
        invariant 0 <= i <= |entries|
        invariant entries == Prune(old(entries), now) && saved == old(saved)
        invariant forall j | 0 <= j < i :: !(entries[j].agent == agent && entries[j].rule == rule)
      {
        var e := entries[i];
        if e.agent == agent && e.rule == rule {
          FindIs(entries, agent, rule, i);
          if e.until > entry.until {
            entry := entry.(until := e.until);
          }
          if e.created < entry.created {
            entry := entry.(created := e.created);
          }
          entries := entries[i := entry];
          ok := PersistLocked(saves);
          return;
        }
        i := i + 1;
      }
      FindIs(entries, agent, rule, i);
      entries := entries + [entry];
      ok := PersistLocked(saves);
    }

    method PersistLocked(saves: bool) returns (ok: bool)
      modifies this`saved
      ensures ok == saves && saved == if saves then entries else old(saved)
    {
      if saves {
        saved := entries;
      }
      ok := saves;
    }

    /** Looks through the live entries for one of the agent's that covers the rule. */
    method IsSilenced(agent: string, rule: string, now: int) returns (silenced: bool)
      modifies this`entries
      ensures entries == Prune(old(entries), now)
      ensures silenced <==> Answer(old(entries), agent, rule, now)
    {
      PruneLocked(now);
      var i := 0;
      while i < |entries|
        invariant 0 <= i <= |entries| && entries == Prune(old(entries), now)
        invariant forall j | 0 <= j < i :: !Mutes(entries[j], agent, rule, now)
      {
        var e := entries[i];
        if e.agent == agent && (e.rule == "" || e.rule == rule) && e.until > now {
          PruneMembers(old(entries), now, e);
          return true;
        }
        i := i + 1;
      }
      forall e | e in old(entries) ensures !Mutes(e, agent, rule, now) {
        PruneMembers(old(entries), now, e);
      }
      return false;
    }

    method List(now: int) returns (out: seq<Entry>)
      modifies this`entries
      ensures entries == Prune(old(entries), now) && out == entries
    {
      PruneLocked(now);
      out := entries;
    }
  }
}
