/** The diagnostic rules, what they save, and why deduplication finds nothing to remove. */
module Diagnostics {
  import opened Sequences
  import opened Timestamps
  import opened Insights

  datatype Disk = Disk(mount: string, usePercent: real)
  datatype Container = Container(id: string, name: string, restarts: int)
  datatype Probe = Probe(target: string, ok: bool)
  datatype Payload = Payload(
    cpuLoad: real, usedMemory: int, totalMemory: int,
    disks: seq<Disk>, containers: seq<Container>, probes: seq<Probe>)
  datatype Thresholds = Thresholds(cpuSpikeMin: real, memoryPressure: real, diskFilling: real, containerRestarts: int)

  // ---------- Identity ----------

  function Barred(parts: seq<string>): string {
    if parts == [] then "" else Barred(parts[..|parts| - 1]) + "|" + parts[|parts| - 1]
  }

  function StableId(agent: string, kind: string, parts: seq<string>): string {
    agent + "|" + kind + Barred(parts)
  }

  method StableInsightId(agent: string, kind: string, parts: seq<string>) returns (id: string)
    ensures id == StableId(agent, kind, parts)
  {
    id := agent + "|" + kind;
    var i := 0;
    while i < |parts|
      invariant 0 <= i <= |parts| && id == agent + "|" + kind + Barred(parts[..i])
    {
      assert parts[..i + 1][..i] == parts[..i];
      id := id + "|" + parts[i];
      i := i + 1;
    }
    assert parts[..i] == parts;
  }

  /** An insight as the rules write it: its id is made from what identifies it. */
  predicate Written(ins: Insight) {
    match ins.kind
    case "CPU_SPIKE" => ins.id == StableId(ins.agent, ins.kind, [])
    case "MEMORY_PRESSURE" => ins.id == StableId(ins.agent, ins.kind, [])
    case "DISK_FILLING" => ins.mount.Some? && ins.id == StableId(ins.agent, ins.kind, [ins.mount.value])
    case "CONTAINER_FLAP" =>
      && ins.containerId.Some? && ins.containerName.Some?
      && ins.id == StableId(ins.agent, ins.kind, [ins.containerId.value])
    case "CONNECTIVITY_FAIL" => ins.target.Some? && ins.id == StableId(ins.agent, ins.kind, [ins.target.value])
    case _ => false
  }

  /** A restarting container that reported no id. */
  predicate Nameless(ins: Insight) {
    ins.kind == "CONTAINER_FLAP" && ins.containerId == Some("")
  }

  /** The row id is the agent, a bar and the dedupe key, unless a container has no id. */
  lemma IdIsAgentAndKey(ins: Insight)
    requires Written(ins) && !Nameless(ins)
    ensures ins.id == ins.agent + "|" + Key(ins)
  {
    if part :| ins.id == StableId(ins.agent, ins.kind, [part]) && Key(ins) == ins.kind + "|" + part {
      OnePart(ins.agent, ins.kind, part);
    } else {
      assert ins.id == StableId(ins.agent, ins.kind, []);
    }
  }

  lemma OnePart(agent: string, kind: string, part: string)
    ensures StableId(agent, kind, [part]) == agent + "|" + (kind + "|" + part)
  {
    assert [part][..0] == [];
    assert Barred([part]) == "|" + part;
  }

  // ---------- Rules ----------

  function Finding(id: string, agent: string, kind: string, severity: string, now: string, summaryKey: string): Insight
  {
    Insight(id, agent, kind, severity, now, summaryKey, None, None, None, None)
  }

  function Spike(agent: string, now: string, th: Thresholds, snap: Payload, prev: Option<Payload>): seq<Insight> {
    if && prev.Some? && prev.value.cpuLoad > 0.0
       && snap.cpuLoad >= prev.value.cpuLoad * 2.0 && snap.cpuLoad >= th.cpuSpikeMin
    then [Finding(StableId(agent, "CPU_SPIKE", []), agent, "CPU_SPIKE", "warning", now, "diagnostics.cpuSpike")]
    else []
  }

  function Pressure(agent: string, now: string, th: Thresholds, snap: Payload): seq<Insight> {
    if snap.totalMemory > 0 && snap.usedMemory as real / snap.totalMemory as real > th.memoryPressure / 100.0
    then [Finding(StableId(agent, "MEMORY_PRESSURE", []), agent, "MEMORY_PRESSURE", "warning", now,
                  "diagnostics.memoryPressure")]
    else []
  }

  function Filling(agent: string, now: string, mount: string): Insight {
    Finding(StableId(agent, "DISK_FILLING", [mount]), agent, "DISK_FILLING", "critical", now, "diagnostics.diskFilling")
      .(mount := Some(mount))
  }

  function Flap(agent: string, now: string, id: string, name: string): Insight {
    Finding(StableId(agent, "CONTAINER_FLAP", [id]), agent, "CONTAINER_FLAP", "warning", now,
            "diagnostics.containerFlap")
      .(containerId := Some(id), containerName := Some(name))
  }

  function Unreachable(agent: string, now: string, target: string): Insight {
    Finding(StableId(agent, "CONNECTIVITY_FAIL", [target]), agent, "CONNECTIVITY_FAIL", "critical", now,
            "diagnostics.connectivityFail").(target := Some(target))
  }

  function Disks(agent: string, now: string, th: Thresholds, disks: seq<Disk>): seq<Insight> {
    if disks == [] then []
    else
      var d := disks[|disks| - 1];
      Disks(agent, now, th, disks[..|disks| - 1])
      + (if d.usePercent >= th.diskFilling then [Filling(agent, now, d.mount)] else [])
  }

  function Flaps(agent: string, now: string, th: Thresholds, containers: seq<Container>): seq<Insight> {
    if containers == [] then []
    else
      var c := containers[|containers| - 1];
      Flaps(agent, now, th, containers[..|containers| - 1])
      + (if c.restarts > th.containerRestarts then [Flap(agent, now, c.id, c.name)] else [])
  }

  function Failures(agent: string, now: string, probes: seq<Probe>): seq<Insight> {
    if probes == [] then []
    else
      var p := probes[|probes| - 1];
      Failures(agent, now, probes[..|probes| - 1]) + (if p.ok then [] else [Unreachable(agent, now, p.target)])
  }

  function Findings(agent: string, now: string, th: Thresholds, snap: Payload, prev: Option<Payload>): seq<Insight> {
    Spike(agent, now, th, snap, prev) + Pressure(agent, now, th, snap) + Disks(agent, now, th, snap.disks)
    + Flaps(agent, now, th, snap.containers) + Failures(agent, now, snap.probes)
  }

  ghost predicate AllWritten(found: seq<Insight>, agent: string, now: string) {
    forall i | 0 <= i < |found| :: Written(found[i]) && found[i].agent == agent && found[i].detectedAt == now
  }

  lemma {:induction false} DisksWritten(agent: string, now: string, th: Thresholds, disks: seq<Disk>)
    ensures AllWritten(Disks(agent, now, th, disks), agent, now)
  {
    if disks != [] { DisksWritten(agent, now, th, disks[..|disks| - 1]); }
  }

  lemma {:induction false} FlapsWritten(agent: string, now: string, th: Thresholds, containers: seq<Container>)
    ensures AllWritten(Flaps(agent, now, th, containers), agent, now)
  {
    if containers != [] { FlapsWritten(agent, now, th, containers[..|containers| - 1]); }
  }

  lemma {:induction false} FailuresWritten(agent: string, now: string, probes: seq<Probe>)
    ensures AllWritten(Failures(agent, now, probes), agent, now)
  {
    if probes != [] { FailuresWritten(agent, now, probes[..|probes| - 1]); }
  }

  lemma FindingsWritten(agent: string, now: string, th: Thresholds, snap: Payload, prev: Option<Payload>)
    ensures AllWritten(Findings(agent, now, th, snap, prev), agent, now)
  {
    DisksWritten(agent, now, th, snap.disks);
    FlapsWritten(agent, now, th, snap.containers);
    FailuresWritten(agent, now, snap.probes);
  }

  // ---------- What is found ----------

  /** A finding made now about an agent, under an id that consists of the given parts. */
  ghost predicate Made(ins: Insight, agent: string, now: string, kind: string, severity: string, summary: string) {
    && ins.agent == agent && ins.detectedAt == now && ins.kind == kind && ins.severity == severity
    && ins.summaryKey == summary
  }

  ghost predicate IsSpike(ins: Insight, agent: string, now: string) {
    && Made(ins, agent, now, "CPU_SPIKE", "warning", "diagnostics.cpuSpike") && ins.id == agent + "|" + "CPU_SPIKE"
    && ins.mount == ins.containerId == ins.containerName == ins.target == None
  }

  ghost predicate IsPressure(ins: Insight, agent: string, now: string) {
    && Made(ins, agent, now, "MEMORY_PRESSURE", "warning", "diagnostics.memoryPressure")
    && ins.id == agent + "|" + "MEMORY_PRESSURE"
    && ins.mount == ins.containerId == ins.containerName == ins.target == None
  }

  ghost predicate IsFilling(ins: Insight, agent: string, now: string, d: Disk) {
    && Made(ins, agent, now, "DISK_FILLING", "critical", "diagnostics.diskFilling")
    && ins.id == agent + "|" + "DISK_FILLING" + "|" + d.mount
    && ins.mount == Some(d.mount) && ins.containerId == ins.containerName == ins.target == None
  }

  ghost predicate IsFlap(ins: Insight, agent: string, now: string, c: Container) {
    && Made(ins, agent, now, "CONTAINER_FLAP", "warning", "diagnostics.containerFlap")
    && ins.id == agent + "|" + "CONTAINER_FLAP" + "|" + c.id
    && ins.containerId == Some(c.id) && ins.containerName == Some(c.name) && ins.mount == ins.target == None
  }

  ghost predicate IsFailure(ins: Insight, agent: string, now: string, p: Probe) {
    && Made(ins, agent, now, "CONNECTIVITY_FAIL", "critical", "diagnostics.connectivityFail")
    && ins.id == agent + "|" + "CONNECTIVITY_FAIL" + "|" + p.target
    && ins.target == Some(p.target) && ins.mount == ins.containerId == ins.containerName == None
  }

  /** The processor load has doubled at least, to the threshold or more. */
  predicate Spikes(th: Thresholds, snap: Payload, prev: Option<Payload>) {
    prev.Some? && 0.0 < prev.value.cpuLoad <= snap.cpuLoad / 2.0 && th.cpuSpikeMin <= snap.cpuLoad
  }

  /** More of the memory is used than the threshold's percentage. */
  predicate Presses(th: Thresholds, snap: Payload) {
    snap.totalMemory > 0 && 100.0 * snap.usedMemory as real > th.memoryPressure * snap.totalMemory as real
  }

  /** Each finding has its cause in the snapshot, and each cause its finding. */
  ghost predicate Found(ins: Insight, agent: string, now: string, th: Thresholds, snap: Payload, prev: Option<Payload>)
  {
    || (Spikes(th, snap, prev) && IsSpike(ins, agent, now))
    || (Presses(th, snap) && IsPressure(ins, agent, now))
    || (exists d :: d in snap.disks && d.usePercent >= th.diskFilling && IsFilling(ins, agent, now, d))
    || (exists c :: c in snap.containers && c.restarts > th.containerRestarts && IsFlap(ins, agent, now, c))
    || (exists p :: p in snap.probes && !p.ok && IsFailure(ins, agent, now, p))
  }

  lemma IdOfParts(agent: string, kind: string, part: string)
    ensures StableId(agent, kind, []) == agent + "|" + kind
    ensures StableId(agent, kind, [part]) == agent + "|" + kind + "|" + part
  {
    assert [part][..0] == [];
    assert Barred([part]) == "" + "|" + part;
  }

  lemma {:induction false} DisksFound(agent: string, now: string, th: Thresholds, disks: seq<Disk>, ins: Insight)
    ensures ins in Disks(agent, now, th, disks) <==>
      exists d :: d in disks && d.usePercent >= th.diskFilling && IsFilling(ins, agent, now, d)
  {
    if disks != [] {
      var front, last := disks[..|disks| - 1], disks[|disks| - 1];
      DisksFound(agent, now, th, front, ins);
      assert disks == front + [last];
      IdOfParts(agent, "DISK_FILLING", last.mount);
      assert IsFilling(ins, agent, now, last) <==> ins == Filling(agent, now, last.mount);
    }
  }

  lemma {:induction false} FlapsFound(
      agent: string, now: string, th: Thresholds, containers: seq<Container>, ins: Insight)
    ensures ins in Flaps(agent, now, th, containers) <==>
      exists c :: c in containers && c.restarts > th.containerRestarts && IsFlap(ins, agent, now, c)
  {
    if containers != [] {
      var front, last := containers[..|containers| - 1], containers[|containers| - 1];
      FlapsFound(agent, now, th, front, ins);
      assert containers == front + [last];
      IdOfParts(agent, "CONTAINER_FLAP", last.id);
      assert IsFlap(ins, agent, now, last) <==> ins == Flap(agent, now, last.id, last.name);
    }
  }

  lemma {:induction false} FailuresFound(agent: string, now: string, probes: seq<Probe>, ins: Insight)
    ensures ins in Failures(agent, now, probes) <==>
      exists p :: p in probes && !p.ok && IsFailure(ins, agent, now, p)
  {
    if probes != [] {
      var front, last := probes[..|probes| - 1], probes[|probes| - 1];
      FailuresFound(agent, now, front, ins);
      assert probes == front + [last];
      IdOfParts(agent, "CONNECTIVITY_FAIL", last.target);
      assert IsFailure(ins, agent, now, last) <==> ins == Unreachable(agent, now, last.target);
    }
  }

  lemma Ratio(used: real, total: real, percent: real)
    requires total > 0.0
    ensures used / total > percent / 100.0 <==> 100.0 * used > percent * total
  {
    assert used / total * total == used;
    assert percent / 100.0 * 100.0 == percent;
    if used / total > percent / 100.0 {
      Times(used / total, percent / 100.0, total);
    }
    if 100.0 * used > percent * total && used / total <= percent / 100.0 {
      if used / total < percent / 100.0 {
        Times(percent / 100.0, used / total, total);
      }
      assert false;
    }
  }

  lemma Times(a: real, b: real, c: real)
    requires a > b && c > 0.0
    ensures a * c > b * c
  {
  }

  lemma ScalarsFound(agent: string, now: string, th: Thresholds, snap: Payload, prev: Option<Payload>, ins: Insight)
    ensures ins in Spike(agent, now, th, snap, prev) <==> Spikes(th, snap, prev) && IsSpike(ins, agent, now)
    ensures ins in Pressure(agent, now, th, snap) <==> Presses(th, snap) && IsPressure(ins, agent, now)
  {
    IdOfParts(agent, "CPU_SPIKE", "");
    IdOfParts(agent, "MEMORY_PRESSURE", "");
    if snap.totalMemory > 0 {
      Ratio(snap.usedMemory as real, snap.totalMemory as real, th.memoryPressure);
    }
  }

  /** The rules find exactly what has a cause: a doubled load, short memory, full disks, restarts, failed probes. */
  lemma FindingsIff(agent: string, now: string, th: Thresholds, snap: Payload, prev: Option<Payload>, ins: Insight)
    ensures ins in Findings(agent, now, th, snap, prev) <==> Found(ins, agent, now, th, snap, prev)
  {
    ScalarsFound(agent, now, th, snap, prev, ins);
    DisksFound(agent, now, th, snap.disks, ins);
    FlapsFound(agent, now, th, snap.containers, ins);
    FailuresFound(agent, now, snap.probes, ins);
  }

  /** The rules one after the other. */
  function Rank(kind: string): nat {
    match kind
    case "CPU_SPIKE" => 0
    case "MEMORY_PRESSURE" => 1
    case "DISK_FILLING" => 2
    case "CONTAINER_FLAP" => 3
    case _ => 4
  }

  ghost predicate InRuleOrder(found: seq<Insight>) {
    forall i, j | 0 <= i < j < |found| :: Rank(found[i].kind) <= Rank(found[j].kind)
  }

  ghost predicate AllOfKind(found: seq<Insight>, kind: string) {
    forall ins | ins in found :: ins.kind == kind
  }

  lemma OneKindMore(a: seq<Insight>, b: seq<Insight>, kind: string)
    requires InRuleOrder(a) && AllOfKind(b, kind) && forall ins | ins in a :: Rank(ins.kind) <= Rank(kind)
    ensures InRuleOrder(a + b) && forall ins | ins in a + b :: Rank(ins.kind) <= Rank(kind)
  {
    forall i, j | 0 <= i < j < |a + b| ensures Rank((a + b)[i].kind) <= Rank((a + b)[j].kind) {
      assert (a + b)[i] in a || (a + b)[i] in b;
      assert j < |a| || (a + b)[j] in b;
    }
  }

  /** The findings come in the order of the rules. */
  lemma FindingsInOrder(agent: string, now: string, th: Thresholds, snap: Payload, prev: Option<Payload>)
    ensures InRuleOrder(Findings(agent, now, th, snap, prev))
  {
    var spike, pressure := Spike(agent, now, th, snap, prev), Pressure(agent, now, th, snap);
    var disks, flaps := Disks(agent, now, th, snap.disks), Flaps(agent, now, th, snap.containers);
    var failures := Failures(agent, now, snap.probes);
    forall ins | ins in disks ensures ins.kind == "DISK_FILLING" { DisksFound(agent, now, th, snap.disks, ins); }
    forall ins | ins in flaps ensures ins.kind == "CONTAINER_FLAP" { FlapsFound(agent, now, th, snap.containers, ins); }
    forall ins | ins in failures ensures ins.kind == "CONNECTIVITY_FAIL" {
      FailuresFound(agent, now, snap.probes, ins);
    }
    OneKindMore(spike, pressure, "MEMORY_PRESSURE");
    OneKindMore(spike + pressure, disks, "DISK_FILLING");
    OneKindMore(spike + pressure + disks, flaps, "CONTAINER_FLAP");
    OneKindMore(spike + pressure + disks + flaps, failures, "CONNECTIVITY_FAIL");
  }

  // ---------- The table ----------

  type Table = map<string, Insight>

  /** Saves the findings one after the other; each save works or not. */
  function Saved(table: Table, found: seq<Insight>, works: nat -> bool): Table {
    if found == [] then table
    else
      var n := |found| - 1;
      var before := Saved(table, found[..n], works);
      if works(n) then before[found[n].id := found[n]] else before
  }

  /** The last save of an id that worked. */
  ghost predicate LastSaved(found: seq<Insight>, works: nat -> bool, id: string, i: nat) {
    && i < |found| && found[i].id == id && works(i)
    && forall j | i < j < |found| && found[j].id == id :: !works(j)
  }

  lemma {:induction false} SavedLast(table: Table, found: seq<Insight>, works: nat -> bool, id: string, i: nat)
    requires LastSaved(found, works, id, i)
    ensures id in Saved(table, found, works) && Saved(table, found, works)[id] == found[i]
  {
    var n := |found| - 1;
    if i < n {
      assert LastSaved(found[..n], works, id, i);
      SavedLast(table, found[..n], works, id, i);
    }
  }

  lemma {:induction false} NotSaved(table: Table, found: seq<Insight>, works: nat -> bool, id: string)
    requires forall i | 0 <= i < |found| && found[i].id == id :: !works(i)
    ensures id in Saved(table, found, works) <==> id in table
    ensures id in table ==> Saved(table, found, works)[id] == table[id]
  {
    if found != [] {
      NotSaved(table, found[..|found| - 1], works, id);
    }
  }

  /** After the saves each id has the row of the last save of it that worked, or else the row it had. */
  lemma SavedIs(table: Table, found: seq<Insight>, works: nat -> bool, id: string)
    ensures var after := Saved(table, found, works);
      && (forall i: nat | LastSaved(found, works, id, i) :: id in after && after[id] == found[i])
      && ((forall i | 0 <= i < |found| && found[i].id == id :: !works(i)) ==>
            (id in after <==> id in table) && (id in after ==> after[id] == table[id]))
  {
    forall i: nat | LastSaved(found, works, id, i)
      ensures id in Saved(table, found, works) && Saved(table, found, works)[id] == found[i]
    {
      SavedLast(table, found, works, id, i);
    }
    if forall i | 0 <= i < |found| && found[i].id == id :: !works(i) {
      NotSaved(table, found, works, id);
    }
  }

  ghost predicate WrittenTable(table: Table) {
    forall id | id in table :: table[id].id == id && Written(table[id])
  }

  lemma {:induction false} SavedKeeps(table: Table, found: seq<Insight>, works: nat -> bool)
    requires WrittenTable(table) && forall i | 0 <= i < |found| :: Written(found[i])
    ensures WrittenTable(Saved(table, found, works))
  {
    if found != [] {
      SavedKeeps(table, found[..|found| - 1], works);
    }
  }

  /** The diagnostic engine with the table it saves to. */
  class Engine {
    var table: Table

    ghost predicate Valid()
      reads this
    {
      WrittenTable(table)
    }

    constructor ()
      ensures Valid() && table == map[]
    {
      table := map[];
    }

    /** Evaluate: the findings of a snapshot, in order, each saved under its stable id if the save works. */
    method Evaluate(agent: string, now: string, th: Thresholds, snap: Payload, prev: Option<Payload>,
                    works: nat -> bool)
      returns (out: seq<Insight>)
      requires Valid()
      modifies this
      ensures Valid() && out == Findings(agent, now, th, snap, prev) && AllWritten(out, agent, now)
      ensures InRuleOrder(out) && forall ins :: ins in out <==> Found(ins, agent, now, th, snap, prev)
      ensures table == Saved(old(table), out, works)
    {
      out := Scalars(agent, now, th, snap, prev);
      var disks := DiskLoop(agent, now, th, snap.disks);
      var flaps := ContainerLoop(agent, now, th, snap.containers);
      var failures := ProbeLoop(agent, now, snap.probes);
      out := out + disks + flaps + failures;
      FindingsWritten(agent, now, th, snap, prev);
      FindingsInOrder(agent, now, th, snap, prev);
      forall ins ensures ins in out <==> Found(ins, agent, now, th, snap, prev) {
        FindingsIff(agent, now, th, snap, prev, ins);
      }
      SavedKeeps(table, out, works);
      SaveLoop(out, works);
    }

    method Scalars(agent: string, now: string, th: Thresholds, snap: Payload, prev: Option<Payload>)
      returns (out: seq<Insight>)
      ensures out == Spike(agent, now, th, snap, prev) + Pressure(agent, now, th, snap)
    {
      out := [];
      if && prev.Some? && prev.value.cpuLoad > 0.0
         && snap.cpuLoad >= prev.value.cpuLoad * 2.0 && snap.cpuLoad >= th.cpuSpikeMin
      {
        var id := StableInsightId(agent, "CPU_SPIKE", []);
        out := out + [Finding(id, agent, "CPU_SPIKE", "warning", now, "diagnostics.cpuSpike")];
      }
      if snap.totalMemory > 0 {
        var ratio := snap.usedMemory as real / snap.totalMemory as real;
        if ratio > th.memoryPressure / 100.0 {
          var id := StableInsightId(agent, "MEMORY_PRESSURE", []);
          out := out + [Finding(id, agent, "MEMORY_PRESSURE", "warning", now, "diagnostics.memoryPressure")];
        }
      }
    }

    method DiskLoop(agent: string, now: string, th: Thresholds, disks: seq<Disk>) returns (out: seq<Insight>)
      ensures out == Disks(agent, now, th, disks)
    {
      out := [];
      var i := 0;
      while i < |disks|
        invariant 0 <= i <= |disks| && out == Disks(agent, now, th, disks[..i])
      {
        assert disks[..i + 1][..i] == disks[..i];
        if disks[i].usePercent >= th.diskFilling {
          var id := StableInsightId(agent, "DISK_FILLING", [disks[i].mount]);
          out := out + [Finding(id, agent, "DISK_FILLING", "critical", now, "diagnostics.diskFilling")
                          .(mount := Some(disks[i].mount))];
        }
        i := i + 1;
      }
      assert disks[..i] == disks;
    }

    method ContainerLoop(agent: string, now: string, th: Thresholds, containers: seq<Container>)
      returns (out: seq<Insight>)
      ensures out == Flaps(agent, now, th, containers)
    {
      out := [];
      var i := 0;
      while i < |containers|
        invariant 0 <= i <= |containers| && out == Flaps(agent, now, th, containers[..i])
      {
        assert containers[..i + 1][..i] == containers[..i];
        var c := containers[i];
        if c.restarts > th.containerRestarts {
          var id := StableInsightId(agent, "CONTAINER_FLAP", [c.id]);
          out := out + [Finding(id, agent, "CONTAINER_FLAP", "warning", now, "diagnostics.containerFlap")
                          .(containerId := Some(c.id), containerName := Some(c.name))];
        }
        i := i + 1;
      }
      assert containers[..i] == containers;
    }

    method ProbeLoop(agent: string, now: string, probes: seq<Probe>) returns (out: seq<Insight>)
      ensures out == Failures(agent, now, probes)
    {
      out := [];
      var i := 0;
      while i < |probes|
        invariant 0 <= i <= |probes| && out == Failures(agent, now, probes[..i])
      {
        assert probes[..i + 1][..i] == probes[..i];
        if !probes[i].ok {
          var id := StableInsightId(agent, "CONNECTIVITY_FAIL", [probes[i].target]);
          out := out + [Finding(id, agent, "CONNECTIVITY_FAIL", "critical", now, "diagnostics.connectivityFail")
                          .(target := Some(probes[i].target))];
        }
        i := i + 1;
      }
      assert probes[..i] == probes;
    }

    method SaveLoop(found: seq<Insight>, works: nat -> bool)
      modifies this
      ensures table == Saved(old(table), found, works)
    {
      var i := 0;
      while i < |found|
        invariant 0 <= i <= |found| && table == Saved(old(table), found[..i], works)
      {
        assert found[..i + 1][..i] == found[..i];
        if works(i) {
          table := table[found[i].id := found[i]];
        }
        i := i + 1;
      }
      assert found[..i] == found;
    }
  }

  // ---------- The list over the table ----------

  /** All rows of an agent, each once, newest first; the database breaks ties as it likes. */
  ghost predicate NewestFirst(all: seq<Insight>, table: Table, agent: string) {
    && (forall i | 0 <= i < |all| :: all[i].agent == agent && all[i].id in table && table[all[i].id] == all[i])
    && (forall i, j | 0 <= i < j < |all| :: all[i].id != all[j].id)
    && (forall id | id in table && table[id].agent == agent :: exists i :: 0 <= i < |all| && all[i].id == id)
    && (forall i, j | 0 <= i < j < |all| :: !TextLess(all[i].detectedAt, all[j].detectedAt))
  }

  /** A container without an id is named like the id of another. */
  ghost predicate NamedLike(a: Insight, b: Insight) {
    Nameless(a) && b.kind == "CONTAINER_FLAP" && b.containerId == a.containerName && b.containerId != Some("")
  }

  ghost predicate NameClash(rows: seq<Insight>) {
    exists i, j :: 0 <= i < |rows| && 0 <= j < |rows| && NamedLike(rows[i], rows[j])
  }

  /** A key that starts like a container's is a container's. */
  lemma ContainerKey(ins: Insight, part: string)
    requires Written(ins) && Key(ins) == "CONTAINER_FLAP" + "|" + part
    ensures ins.kind == "CONTAINER_FLAP" && ContainerPart(ins) == part
  {
    var key := Key(ins);
    assert key[..|ins.kind|] == ins.kind;
    assert key[1] == 'O' && key[3] == 'T' && |key| >= 15 && key[..15] == "CONTAINER_FLAP|";
    assert |ins.kind| >= 4 && key[1] == ins.kind[1] && key[3] == ins.kind[3];
    assert ins.kind == "CONTAINER_FLAP";
    assert key[15..] == part && key[15..] == ContainerPart(ins);
  }

  /** Two different rows of an agent have the same key only by a clash of names. */
  lemma SameKeyIffNamedLike(a: Insight, b: Insight)
    requires Written(a) && Written(b) && a.agent == b.agent && a.id != b.id
    ensures Key(a) == Key(b) <==> NamedLike(a, b) || NamedLike(b, a)
  {
    assert Nameless(a) && Nameless(b) ==> a.id == b.id;
    if Nameless(a) {
      NamelessKey(a, b);
    } else if Nameless(b) {
      NamelessKey(b, a);
    } else {
      IdIsAgentAndKey(a);
      IdIsAgentAndKey(b);
    }
  }

  lemma NamelessKey(a: Insight, b: Insight)
    requires Written(a) && Written(b) && Nameless(a) && !Nameless(b)
    ensures Key(a) == Key(b) <==> NamedLike(a, b)
  {
    if Key(b) == "CONTAINER_FLAP" + "|" + a.containerName.value {
      ContainerKey(b, a.containerName.value);
    }
  }

  /** Different rows of one agent. */
  ghost predicate RowsOfAgent(rows: seq<Insight>, agent: string) {
    && (forall i | 0 <= i < |rows| :: Written(rows[i]) && rows[i].agent == agent)
    && (forall i, j | 0 <= i < j < |rows| :: rows[i].id != rows[j].id)
  }

  lemma DistinctIffNoClash(rows: seq<Insight>, agent: string)
    requires RowsOfAgent(rows, agent)
    ensures DistinctKeys(rows) <==> !NameClash(rows)
  {
    forall i, j | 0 <= i < j < |rows|
      ensures Key(rows[i]) == Key(rows[j]) <==> NamedLike(rows[i], rows[j]) || NamedLike(rows[j], rows[i])
    {
      SameKeyIffNamedLike(rows[i], rows[j]);
    }
    if i, j :| 0 <= i < |rows| && 0 <= j < |rows| && NamedLike(rows[i], rows[j]) {
      assert i < j || j < i;
    }
  }

  /**
    On rows the rules wrote, deduplication removes nothing exactly when no container without
    an id has another's id as its name.
   */
  lemma NothingToRemoveIff(all: seq<Insight>, table: Table, agent: string, n: nat)
    requires WrittenTable(table) && NewestFirst(all, table, agent)
    ensures |Order(Taken(all, n))| == |Taken(all, n)| <==> !NameClash(Taken(all, n))
  {
    KeepsAllIffDistinct(Taken(all, n));
    DistinctIffNoClash(Taken(all, n), agent);
  }

  /**
    The list is exactly the newest `limit` rows if and only if no names clash among these;
    a clash further down does no harm.
   */
  lemma ListIsNewestIff(all: seq<Insight>, table: Table, agent: string, limit: int)
    requires WrittenTable(table) && NewestFirst(all, table, agent)
    ensures var most := if limit > 0 then limit else 50;
      Deduped(Taken(all, 3 * most), limit) == Taken(all, most) <==> !NameClash(Taken(all, most))
  {
    DistinctIffNoClash(Taken(all, AtMost(limit)), agent);
    ListedIffDistinct(all, 3 * AtMost(limit), limit);
  }

  /** With container ids that are never empty the list is exactly the newest `limit` rows. */
  lemma ListIsNewestWithIds(all: seq<Insight>, table: Table, agent: string, limit: int)
    requires WrittenTable(table) && NewestFirst(all, table, agent)
    requires forall i | 0 <= i < |all| :: !Nameless(all[i])
    ensures var most := if limit > 0 then limit else 50; Deduped(Taken(all, 3 * most), limit) == Taken(all, most)
  {
    assert !NameClash(Taken(all, AtMost(limit)));
    ListIsNewestIff(all, table, agent, limit);
  }

  /** A container without an id and one whose id is that one's name: two findings, one listed. */
  lemma ClashLosesAFinding(now: string)
    ensures var a, b := Flap("a", now, "", "web"), Flap("a", now, "web", "w");
      Written(a) && Written(b) && a.id != b.id && |Deduped([a, b], 10)| == 1
  {
    var a, b := Flap("a", now, "", "web"), Flap("a", now, "web", "w");
    OnePart("a", "CONTAINER_FLAP", "");
    OnePart("a", "CONTAINER_FLAP", "web");
    assert |a.id| != |b.id|;
    assert [a, b][..1] == [a] && [a][..0] == [];
    assert Order([a]) == [Key(a)] && Key(a) == Key(b);
  }

  // ---------- Rows of different agents ----------

  /** The kinds whose ids end in a part. */
  const PARTED: set<string> := {"DISK_FILLING", "CONTAINER_FLAP", "CONNECTIVITY_FAIL"}

  /** One agent's name goes on like an id of the other's findings. */
  ghost predicate Reads(a: string, b: string) {
    exists kind :: kind in PARTED && (b == a + "|" + kind || a + "|" + kind + "|" <= b)
  }

  ghost predicate SameId(x: Insight, y: Insight) {
    Written(x) && Written(y) && x.id == y.id
  }

  /** Some finding of one agent and some finding of the other are kept under one id. */
  ghost predicate ShareAnId(a: string, b: string) {
    exists x, y :: SameId(x, y) && x.agent == a && y.agent == b
  }

  /** What follows the agent and a bar in an id. */
  ghost predicate TailOf(ins: Insight, tail: string) {
    && ins.id == ins.agent + "|" + tail
    && '|' !in ins.kind
    && (tail == ins.kind || (ins.kind in PARTED && exists part :: tail == ins.kind + "|" + part))
  }

  lemma HasTail(ins: Insight)
    requires Written(ins)
    ensures exists tail :: TailOf(ins, tail)
  {
    if ins.kind in PARTED {
      var part :| ins.id == StableId(ins.agent, ins.kind, [part]);
      OnePart(ins.agent, ins.kind, part);
      assert TailOf(ins, ins.kind + "|" + part);
    } else {
      assert ins.id == ins.agent + "|" + ins.kind;
      assert TailOf(ins, ins.kind);
    }
  }

  /** A text without bars is no prefix of one that has a bar within its length. */
  lemma KindComesFirst(kind: string, part: string, rest: string, tail: string)
    requires '|' !in kind && kind + "|" + part == rest + "|" + tail
    ensures rest == kind || kind + "|" <= rest
  {
    var text := kind + "|" + part;
    assert forall i | 0 <= i < |kind| :: text[i] == kind[i];
    assert text[|rest|] == '|' && text[|kind|] == '|';
    assert rest == text[..|rest|] && kind == text[..|kind|];
    if |rest| > |kind| {
      assert kind + "|" == text[..|kind| + 1];
    }
  }

  lemma NoBarInside(kind: string, rest: string, tail: string)
    requires '|' !in kind
    ensures kind != rest + "|" + tail
  {
    assert (rest + "|" + tail)[|rest|] == '|';
  }

  lemma LongerName(a: string, b: string, t: string, u: string) returns (rest: string)
    requires |a| < |b| && a + "|" + t == b + "|" + u
    ensures b == a + "|" + rest && t == rest + "|" + u
  {
    var id := a + "|" + t;
    rest := b[|a| + 1..];
    assert id[|a|] == '|' && a == id[..|a|] && b == id[..|b|];
    assert b == a + "|" + rest;
    assert t == id[|a| + 1..] == rest + "|" + u;
  }

  lemma ReadsFrom(a: string, b: string, kind: string, rest: string)
    requires kind in PARTED && b == a + "|" + rest && (rest == kind || kind + "|" <= rest)
    ensures Reads(a, b)
  {
    assert a + "|" + kind + "|" == a + "|" + (kind + "|");
    assert rest != kind ==> a + "|" + kind + "|" <= b;
  }

  /** Of two agents with a shared id the one with the longer name reads as an id of the other. */
  lemma SharedIdReads(x: Insight, y: Insight)
    requires SameId(x, y) && |x.agent| < |y.agent|
    ensures Reads(x.agent, y.agent)
  {
    HasTail(x);
    HasTail(y);
    var t :| TailOf(x, t);
    var u :| TailOf(y, u);
    var rest := LongerName(x.agent, y.agent, t, u);
    NoBarInside(x.kind, rest, u);
    var part :| t == x.kind + "|" + part;
    KindComesFirst(x.kind, part, rest, u);
    ReadsFrom(x.agent, y.agent, x.kind, rest);
  }

  /** A finding of each kind that has a part. */
  function PartedFinding(agent: string, kind: string, part: string): (ins: Insight)
    requires kind in PARTED
    ensures Written(ins) && ins.agent == agent && ins.id == StableId(agent, kind, [part])
  {
    if kind == "DISK_FILLING" then Filling(agent, "", part)
    else if kind == "CONTAINER_FLAP" then Flap(agent, "", part, "")
    else Unreachable(agent, "", part)
  }

  function SpikeFinding(agent: string): Insight {
    Finding(StableId(agent, "CPU_SPIKE", []), agent, "CPU_SPIKE", "warning", "", "diagnostics.cpuSpike")
  }

  lemma SpikeId(agent: string)
    ensures SpikeFinding(agent).id == agent + "|" + "CPU_SPIKE" && Written(SpikeFinding(agent))
  {
  }

  /** A part that completes an id of the one agent to an id of the other. */
  lemma CompletingPart(front: string, b: string) returns (part: string)
    requires b == front || front + "|" <= b
    ensures front + "|" + part == b + "|" + "CPU_SPIKE"
  {
    if b == front {
      part := "CPU_SPIKE";
    } else {
      var rest := b[|front| + 1..];
      part := rest + "|" + "CPU_SPIKE";
      assert b == front + "|" + rest;
    }
  }

  lemma CompletedIdsAgree(a: string, b: string, kind: string, part: string)
    requires kind in PARTED && a + "|" + kind + "|" + part == b + "|" + "CPU_SPIKE"
    ensures SameId(PartedFinding(a, kind, part), SpikeFinding(b))
  {
    OnePart(a, kind, part);
    SpikeId(b);
    assert a + "|" + (kind + "|" + part) == a + "|" + kind + "|" + part;
  }

  lemma ReadsSharesId(a: string, b: string)
    requires Reads(a, b)
    ensures ShareAnId(a, b) && ShareAnId(b, a)
  {
    var kind :| kind in PARTED && (b == a + "|" + kind || a + "|" + kind + "|" <= b);
    var part := CompletingPart(a + "|" + kind, b);
    CompletedIdsAgree(a, b, kind, part);
    assert SameId(SpikeFinding(b), PartedFinding(a, kind, part));
  }

  lemma ReadsHasBar(a: string, b: string)
    requires Reads(a, b)
    ensures '|' in b
  {
    assert b[|a|] == '|';
  }

  /** Findings of two agents can share an id exactly when the name of one goes on like an id of the other's findings. */
  lemma AgentsShareIdsIff(a: string, b: string)
    requires a != b
    ensures ShareAnId(a, b) <==> Reads(a, b) || Reads(b, a)
  {
    if ShareAnId(a, b) {
      var x, y :| SameId(x, y) && x.agent == a && y.agent == b;
      SharedIdOfTwo(x, y);
    }
    if Reads(a, b) {
      ReadsSharesId(a, b);
    }
    if Reads(b, a) {
      ReadsSharesId(b, a);
    }
  }

  lemma SharedIdOfTwo(x: Insight, y: Insight)
    requires SameId(x, y) && x.agent != y.agent
    ensures Reads(x.agent, y.agent) || Reads(y.agent, x.agent)
  {
    HasTail(x);
    HasTail(y);
    assert x.agent == x.id[..|x.agent|] && y.agent == y.id[..|y.agent|];
    if |x.agent| < |y.agent| {
      SharedIdReads(x, y);
    } else {
      SharedIdReads(y, x);
    }
  }

  /** Agents without bars in their names never share an id. */
  lemma BarlessAgentsApart(a: string, b: string)
    requires a != b && '|' !in a && '|' !in b
    ensures !ShareAnId(a, b)
  {
    AgentsShareIdsIff(a, b);
    if Reads(a, b) {
      ReadsHasBar(a, b);
    } else if Reads(b, a) {
      ReadsHasBar(b, a);
    }
  }

  /** Saving the findings of one agent leaves the rows of another alone, unless their names read so. */
  lemma {:induction false} SavedSparesOthers(
      table: Table, found: seq<Insight>, works: nat -> bool, agent: string, id: string)
    requires WrittenTable(table) && id in table
    requires forall i | 0 <= i < |found| :: Written(found[i]) && found[i].agent == agent
    requires table[id].agent != agent && !Reads(table[id].agent, agent) && !Reads(agent, table[id].agent)
    ensures id in Saved(table, found, works) && Saved(table, found, works)[id] == table[id]
  {
    if found != [] {
      var front, last := found[..|found| - 1], found[|found| - 1];
      SavedSparesOthers(table, front, works, agent, id);
      if last.id == id {
        SharedIdOfTwo(table[id], last);
      }
    }
  }

  /** And if they read so, one finding of the one can remove the other from the table. */
  lemma SavedRemovesOther(a: string, b: string, works: nat -> bool)
    requires a != b && (Reads(a, b) || Reads(b, a)) && works(0)
    ensures exists x, y :: SameId(x, y) && x.agent == a && y.agent == b
                        && Saved(map[x.id := x], [y], works) == map[x.id := y]
  {
    AgentsShareIdsIff(a, b);
    var x, y :| SameId(x, y) && x.agent == a && y.agent == b;
    assert [y][..0] == [];
    assert Saved(map[x.id := x], [], works) == map[x.id := x];
    assert Saved(map[x.id := x], [y], works) == map[x.id := x][y.id := y];
  }

  /** For example a full disk mounted at "CPU_SPIKE" and a spike of an agent named after the other's disks. */
  lemma AgentsWithBarsCollide(now: string)
    ensures Filling("a", now, "CPU_SPIKE").id == StableId("a|DISK_FILLING", "CPU_SPIKE", [])
    ensures Reads("a", "a|DISK_FILLING")
  {
    OnePart("a", "DISK_FILLING", "CPU_SPIKE");
    assert "a|DISK_FILLING" == "a" + "|" + "DISK_FILLING" && "DISK_FILLING" in PARTED;
  }
}
