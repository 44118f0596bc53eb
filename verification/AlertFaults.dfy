/** The rules that look at a state and not at a measured value: what makes them active, and what their alerts say
    of a run. */
module AlertFaults {
  import opened Common
  import opened AlertKeys
  import opened AlertModel
  import opened AlertSafety
  import opened AlertAutomaton
  import opened AlertTiming
  import opened AlertRules
  import opened AlertFlapping
  import opened Disks

  datatype Fault = Down | Looping | Unhealthy | DriveFailing | ArrayDegraded | SourceLost | DatabaseLarge

  function FaultRule(f: Fault): string {
    match f
    case Down => "container_down"
    case Looping => "restart_loop"
    case Unhealthy => "health_failing"
    case DriveFailing => "smart_failing"
    case ArrayDegraded => "raid_degraded"
    case SourceLost => "host_unreachable"
    case DatabaseLarge => "db_size"
  }

  /** How long a fault has to last before its alert opens. */
  function FaultHold(t: Thresholds, f: Fault): int {
    match f
    case Down => t.debounce
    case Unhealthy => t.debounce
    case SourceLost => t.hostUnreachableFor
    case _ => 0
  }

  /** A container that counts as down at `now`: restarting for longer than the debounce; or stopped, and either to be
      kept running at all costs, or with a failure that its policy or the last 24 hours make worth an alert. */
  predicate CountsAsDown(c: Container, now: Time, debounce: int) {
    || (c.state == "restarting" && now - c.finishedAt * SECOND > debounce)
    || (c.state !in {"running", "paused", "created", "restarting"}
        && (|| c.restartPolicy in {"always", "unless-stopped"}
            || (c.exitCode != 0 && c.restartPolicy == "on-failure")
            || (c.exitCode != 0 && (c.finishedAt == 0 || now - c.finishedAt * SECOND <= 24 * 3600 * SECOND))))
  }

  /** smartctl's verdict is bad, or a sector is. */
  predicate IsFailing(d: Disk) {
    (d.smartKnown && !d.smartPassed) || d.reallocated != 0 || d.pending != 0 || d.uncorrectable != 0
  }

  /** The snapshot shows the fault. Which alerts fire already plays no part. */
  ghost predicate Shows(e: Inputs, snap: Snapshot, f: Fault, target: string) {
    match f
    case Down => exists c :: c in snap.containers && c.id == target && CountsAsDown(c, e.clock, e.t.debounce)
    case Looping =>
      && (if target in e.restarts then e.restarts[target] else 0) >= e.t.restartLoopCount
      && exists c :: c in snap.containers && c.id == target
    case Unhealthy => exists c :: c in snap.containers && c.id == target && c.health == "unhealthy"
    case DriveFailing => exists d :: d in snap.disks && d.device == target && IsFailing(d)
    case ArrayDegraded => exists a :: a in snap.arrays && a.name == target && (a.active ==> a.degraded)
    case SourceLost => target in ["docker", "portainer"] && target in snap.sources && !snap.sources[target].ok
    case DatabaseLarge => target == "sqlite" && 0 < e.t.dbMax < snap.dbBytes
  }

  /** The severity a fault's alert has, and the name it is shown under. */
  function FaultSeverity(f: Fault): string {
    if f.Unhealthy? || f.DatabaseLarge? then "warning" else "critical"
  }

  ghost predicate IsNameOf(snap: Snapshot, f: Fault, target: string, name: string) {
    match f
    case Down => exists c :: c in snap.containers && c.id == target && c.name == name
    case Looping => exists c :: c in snap.containers && c.id == target && c.name == name
    case Unhealthy => exists c :: c in snap.containers && c.id == target && c.name == name
    case DriveFailing =>
      exists d :: d in snap.disks && d.device == target
                  && name == if d.model == "" then target else target + " (" + d.model + ")"
    case ArrayDegraded => exists a :: a in snap.arrays && a.name == target && name == target + " " + a.level
    case SourceLost => name == target
    case DatabaseLarge => name == "dashboard.db"
  }

  /** What a fault's condition says, besides its rule. */
  ghost predicate IsCondition(e: Inputs, snap: Snapshot, f: Fault, c: Condition) {
    && c.severity == FaultSeverity(f) && c.holdFor == FaultHold(e.t, f)
    && c.message == e.say(FaultRule(f), c.target) && IsNameOf(snap, f, c.target, c.targetName)
  }

  lemma DownIsCounted(e: Inputs, c: Container)
    ensures ContainerDown(e, c) <==> CountsAsDown(c, e.clock, e.t.debounce)
  {}

  // Which conditions of each source carry the rule of a fault.

  lemma FaultInContainer(e: Inputs, h: Host, x: Container, f: Fault, c: Condition)
    requires c.rule == FaultRule(f) && c in ContainerConditions(e, h, x)
    ensures c.target == x.id && c.targetName == x.name && c.holdFor == FaultHold(e.t, f)
    ensures c.severity == FaultSeverity(f) && c.message == e.say(c.rule, c.target)
    ensures match f
            case Down => ContainerDown(e, x)
            case Looping => RestartsOf(e, x.id) >= e.t.restartLoopCount
            case Unhealthy => x.health == "unhealthy"
            case _ => false
  {
    hide ContainerDown, LoadConditions, RestartsOf;
    FaultNotInLoad(e, h, x, f, c);
  }

  lemma FaultNotInLoad(e: Inputs, h: Host, x: Container, f: Fault, c: Condition)
    requires c.rule == FaultRule(f)
    ensures c !in LoadConditions(e, h, x)
  {
    hide LimitFor, CpuShare, MemoryShare, HasMemoryLimit;
  }

  lemma ContainerRaises(e: Inputs, h: Host, x: Container)
    ensures ContainerDown(e, x) ==>
      Raise(e, "container_down", x.id, x.name, "critical", e.t.debounce) in ContainerConditions(e, h, x)
    ensures RestartsOf(e, x.id) >= e.t.restartLoopCount ==>
      Raise(e, "restart_loop", x.id, x.name, "critical", 0) in ContainerConditions(e, h, x)
    ensures x.health == "unhealthy" ==>
      Raise(e, "health_failing", x.id, x.name, "warning", e.t.debounce) in ContainerConditions(e, h, x)
  {
    hide ContainerDown, LoadConditions, RestartsOf, Raise;
  }

  lemma FaultNotInHost(e: Inputs, h: Host, f: Fault, c: Condition)
    requires c.rule == FaultRule(f)
    ensures c !in HostConditions(e, h) && forall x: MountUsage :: c !in MountConditions(e, x)
  {
    hide LimitFor, Percent;
  }

  lemma FaultInDisk(e: Inputs, x: Disk, f: Fault, c: Condition)
    requires c.rule == FaultRule(f)
    ensures c in DiskConditions(e, x) <==>
      f.DriveFailing? && !Healthy(x) && c == Raise(e, "smart_failing", x.device, DiskName(x), "critical", 0)
  {
    hide LimitFor, Healthy, DiskName;
  }

  lemma FaultInRest(e: Inputs, snap: Snapshot, f: Fault, c: Condition)
    requires c.rule == FaultRule(f)
    ensures forall x: Array :: c in ArrayConditions(e, x) <==>
      f.ArrayDegraded? && (x.active ==> x.degraded)
      && c == Raise(e, "raid_degraded", x.name, x.name + " " + x.level, "critical", 0)
    ensures forall x: string :: c in SourceConditions(e, snap.sources, x) <==>
      f.SourceLost? && x in snap.sources && !snap.sources[x].ok
      && c == Raise(e, "host_unreachable", x, x, "critical", e.t.hostUnreachableFor)
    ensures c in SizeConditions(e, snap.dbBytes) <==>
      f.DatabaseLarge? && 0 < e.t.dbMax < snap.dbBytes
      && c == Raise(e, "db_size", "sqlite", "dashboard.db", "warning", 0)
  {}

  /** A raised condition with the rule of a fault stands on that fault. */
  lemma {:induction false} RaisedFaultIsShown(e: Inputs, snap: Snapshot, f: Fault, c: Condition)
    requires c in Conditions(e, snap) && c.rule == FaultRule(f)
    ensures IsCondition(e, snap, f, c) && Shows(e, snap, f, c.target)
  {
    hide Conditions, ContainerConditions, HostConditions, MountConditions, DiskConditions, ArrayConditions,
      SourceConditions, SizeConditions, ContainerDown, Healthy;
    InConditions(e, snap, c);
    FaultNotInHost(e, snap.host, f, c);
    FaultInRest(e, snap, f, c);
    if x :| x in snap.containers && c in ContainerConditions(e, snap.host, x) {
      FaultInContainer(e, snap.host, x, f, c);
      DownIsCounted(e, x);
    } else if x :| x in snap.disks && c in DiskConditions(e, x) {
      FaultInDisk(e, x, f, c);
      FailingIsUnhealthy(x);
      DriveIsNamed(x);
    }
  }

  lemma FailingIsUnhealthy(d: Disk)
    ensures IsFailing(d) <==> !Healthy(d)
  {}

  lemma DriveIsNamed(d: Disk)
    ensures DiskName(d) == if d.model == "" then d.device else d.device + " (" + d.model + ")"
  {}

  /** A fault a snapshot shows is raised. */
  lemma {:induction false} ShownFaultIsRaised(e: Inputs, snap: Snapshot, f: Fault, target: string)
    returns (c: Condition)
    requires Shows(e, snap, f, target)
    ensures c in Conditions(e, snap) && c.rule == FaultRule(f) && c.target == target
  {
    hide Conditions, ContainerConditions, HostConditions, MountConditions, DiskConditions, ArrayConditions,
      SourceConditions, SizeConditions, ContainerDown, Healthy, DiskName;
    match f {
      case Down =>
        var x :| x in snap.containers && x.id == target && CountsAsDown(x, e.clock, e.t.debounce);
        DownIsCounted(e, x);
        ContainerRaises(e, snap.host, x);
        c := Raise(e, "container_down", x.id, x.name, "critical", e.t.debounce);
      case Looping =>
        var x :| x in snap.containers && x.id == target;
        ContainerRaises(e, snap.host, x);
        c := Raise(e, "restart_loop", x.id, x.name, "critical", 0);
      case Unhealthy =>
        var x :| x in snap.containers && x.id == target && x.health == "unhealthy";
        ContainerRaises(e, snap.host, x);
        c := Raise(e, "health_failing", x.id, x.name, "warning", e.t.debounce);
      case DriveFailing =>
        var x :| x in snap.disks && x.device == target && IsFailing(x);
        FailingIsUnhealthy(x);
        c := Raise(e, "smart_failing", x.device, DiskName(x), "critical", 0);
        FaultInDisk(e, x, f, c);
      case ArrayDegraded =>
        var x :| x in snap.arrays && x.name == target && (x.active ==> x.degraded);
        c := Raise(e, "raid_degraded", x.name, x.name + " " + x.level, "critical", 0);
        FaultInRest(e, snap, f, c);
      case SourceLost =>
        c := Raise(e, "host_unreachable", target, target, "critical", e.t.hostUnreachableFor);
        FaultInRest(e, snap, f, c);
      case DatabaseLarge =>
        c := Raise(e, "db_size", "sqlite", "dashboard.db", "warning", 0);
        FaultInRest(e, snap, f, c);
    }
    InConditions(e, snap, c);
  }

  /** The key of a fault is active exactly when the snapshot shows the fault, and then with its hold time, severity,
      message and name. */
  lemma FaultKeyActive(e: Inputs, snap: Snapshot, f: Fault, target: string)
    ensures var k, active := KeyOf(FaultRule(f), target), ActiveMap(Conditions(e, snap));
      && (k in active <==> Shows(e, snap, f, target))
      && (k in active ==> active[k].rule == FaultRule(f) && active[k].target == target)
      && (k in active ==> IsCondition(e, snap, f, active[k]))
  {
    var k, conds := KeyOf(FaultRule(f), target), Conditions(e, snap);
    hide KeyOf, Conditions, ActiveMap, Shows, FaultHold, FaultRule, IsCondition;
    InActiveMap(conds, k);
    FaultRuleHasNoBar(f);
    if k in ActiveMap(conds) {
      var c := ActiveMap(conds)[k];
      ConditionsNameRules(e, snap, c);
      RulesHaveNoBar(c.rule);
      KeysAreDistinct(c.rule, c.target, FaultRule(f), target);
      RaisedFaultIsShown(e, snap, f, c);
    }
    if Shows(e, snap, f, target) {
      var c := ShownFaultIsRaised(e, snap, f, target);
    }
  }

  lemma FaultRuleHasNoBar(f: Fault)
    ensures '|' !in FaultRule(f)
  {}

  /** With the container unchanged, time alone ends at most one thing and starts at most one: a container that keeps
      restarting comes to count as down, and one that stopped comes to count as stopped long ago. */
  lemma DownTurnsOnce(e: Inputs, later: Inputs, c: Container)
    requires e.t == later.t && e.clock <= later.clock
    ensures c.state == "restarting" && ContainerDown(e, c) ==> ContainerDown(later, c)
    ensures c.state != "restarting" && ContainerDown(later, c) ==> ContainerDown(e, c)
  {}

  /** In a run, seeing a fault's key is seeing the fault. */
  lemma {:induction false} SeenIsShown(
    events: seq<Event>, snaps: seq<Snapshot>, inputs: seq<Inputs>, t: Thresholds, f: Fault, target: string, n: nat)
    requires DrivenBy(events, snaps, inputs, t) && n < |events|
    requires LookOf(Trace(events, KeyOf(FaultRule(f), target))[n]).Some?
    ensures var x := At(Trace(events, KeyOf(FaultRule(f), target)), n);
      && ClockOf(events[n]) == Some(x.now) && x.debounce == events[n].env.debounce
      && (x.hold.Some? <==> Shows(inputs[n], snaps[n], f, target))
      && (x.hold.Some? ==> x.hold.value == FaultHold(t, f))
  {
    hide KeyOf, Conditions, ActiveMap, Shows, FaultRule;
    LookIsTheClock(events, KeyOf(FaultRule(f), target), n);
    FaultKeyActive(inputs[n], snaps[n], f, target);
  }

  lemma EvaluationIsLooked(events: seq<Event>, k: Key, n: nat)
    requires n < |events| && ClockOf(events[n]).Some? && !Trace(events, k)[n].Crash?
    ensures events[n].Evaluate? && Trace(events, k)[n].Eval?
  {}

  /** A fault's alert row appears at `i` only after every evaluation from `a` on showed the fault, for its hold time,
      and goes only after none did, for the debounce time: over every run with store failures, crashes and restarts. */
  lemma {:induction false} FaultRowIsEarned(
    events: seq<Event>, snaps: seq<Snapshot>, inputs: seq<Inputs>, t: Thresholds, f: Fault, target: string, i: nat)
    returns (a: nat)
    requires Feasible(events) && DrivenBy(events, snaps, inputs, t) && i < |events|
    requires var k := KeyOf(FaultRule(f), target);
             HasFiringRow(Run(events[..i]).rows, k) != HasFiringRow(Run(events[..i + 1]).rows, k)
    ensures var k := KeyOf(FaultRule(f), target);
            var opening := !HasFiringRow(Run(events[..i]).rows, k);
      && a <= i && ClockOf(events[a]).Some? && ClockOf(events[i]).Some?
      && ClockOf(events[i]).value - ClockOf(events[a]).value
           >= (if opening then FaultHold(t, f) else events[i].env.debounce)
      && Shows(inputs[i], snaps[i], f, target) == opening
      && (forall n | a <= n < i && ClockOf(events[n]).Some? ::
            events[n].Evaluate? && Shows(inputs[n], snaps[n], f, target) == opening)
  {
    var k := KeyOf(FaultRule(f), target);
    var trace := Trace(events, k);
    hide KeyOf, Conditions, ActiveMap, Shows, FaultRule, FaultHold, Run, HasFiringRow, Feasible, Trace, ClockOf;
    assert |snaps| == |inputs| == |events|;
    a := RowChangesAreEarned(events, k, i);
    SeenIsShown(events, snaps, inputs, t, f, target, a);
    SeenIsShown(events, snaps, inputs, t, f, target, i);
    var opening := !HasFiringRow(Run(events[..i]).rows, k);
    forall n | a <= n < i && ClockOf(events[n]).Some?
      ensures events[n].Evaluate? && Shows(inputs[n], snaps[n], f, target) == opening
    {
      EvaluationIsLooked(events, k, n);
      SeenIsShown(events, snaps, inputs, t, f, target, n);
    }
  }
}
