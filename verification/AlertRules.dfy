/** The alert rules: which conditions a snapshot raises, given which alerts fire already. */
module AlertRules {
  import opened Common
  import opened AlertKeys
  import opened AlertModel
  import opened AlertHysteresis
  import opened Disks

  datatype Thresholds = Thresholds(
    cpuPercent: real, memoryPercent: real, diskPercent: real, diskTemp: int, restartLoopCount: int,
    sustainedFor: int, debounce: int, hostUnreachableFor: int, dbMax: int)

  datatype Live = Live(cpuPercent: real, memBytes: nat, memLimit: nat)

  datatype Container = Container(
    id: string, name: string, state: string, health: string, restartPolicy: string, exitCode: int, finishedAt: int,
    memoryLimit: int, cpuLimit: real, live: Option<Live>)

  datatype MountUsage = MountUsage(mount: string, used: nat, total: nat)

  datatype Array = Array(name: string, level: string, active: bool, degraded: bool)

  datatype SourceStatus = SourceStatus(ok: bool, lastError: string)

  datatype Host = Host(hostname: string, cpus: int, cpuPercent: real, memUsed: nat, memTotal: nat,
                       mounts: seq<MountUsage>)

  datatype Snapshot = Snapshot(
    host: Host, containers: seq<Container>, disks: seq<Disk>, arrays: seq<Array>,
    sources: map<string, SourceStatus>, dbBytes: int)

  const PERCENT_HYSTERESIS := 5.0
  const TEMP_HYSTERESIS := 3
  const DAY: int := 86_400 * SECOND

  /** The fixed inputs of one call: settings, restart counts, the firing keys, the clock as containerDown
      reads it, and the message texts. */
  datatype Inputs = Inputs(
    t: Thresholds, restarts: map<string, int>, firing: set<Key>, clock: Time, say: (string, string) -> string)

  function Percent(part: nat, whole: nat): real
    requires whole > 0
  {
    part as real / whole as real * 100.0
  }

  function Raise(e: Inputs, rule: string, target: string, name: string, severity: string, holdFor: int): Condition {
    Condition(rule, target, name, severity, e.say(rule, target), holdFor)
  }

  /** A limit, lowered by the band while the rule fires for the target. */
  function LimitFor(e: Inputs, rule: string, target: string, limit: real, band: real): real {
    if KeyOf(rule, target) in e.firing then limit - band else limit
  }

  predicate StoppedLongAgo(e: Inputs, c: Container) {
    c.finishedAt != 0 && e.clock - c.finishedAt * SECOND > DAY
  }

  predicate ContainerDown(e: Inputs, c: Container) {
    if c.state in {"running", "paused", "created", "restarting"} then
      c.state == "restarting" && e.clock - c.finishedAt * SECOND > e.t.debounce
    else if c.restartPolicy in {"always", "unless-stopped"} then true
    else if c.restartPolicy == "on-failure" then c.exitCode != 0
    else c.exitCode != 0 && !StoppedLongAgo(e, c)
  }

  function CpuShare(h: Host, c: Container): real
    requires c.live.Some?
  {
    var scale := if c.cpuLimit > 0.0 then c.cpuLimit else if h.cpus > 0 then h.cpus as real else 1.0;
    c.live.value.cpuPercent / scale
  }

  predicate HasMemoryLimit(c: Container) {
    c.live.Some? && c.live.value.memLimit > 0 && c.memoryLimit > 0
  }

  function MemoryShare(c: Container): real
    requires HasMemoryLimit(c)
  {
    Percent(c.live.value.memBytes, c.live.value.memLimit)
  }

  function RestartsOf(e: Inputs, id: string): int {
    if id in e.restarts then e.restarts[id] else 0
  }

  function When(b: bool, c: Condition): seq<Condition> { if b then [c] else [] }

  function LoadConditions(e: Inputs, h: Host, c: Container): seq<Condition> {
    When(c.live.Some? && c.state == "running"
           && CpuShare(h, c) >= LimitFor(e, "cpu_high", c.id, e.t.cpuPercent, PERCENT_HYSTERESIS),
           Raise(e, "cpu_high", c.id, c.name, "warning", e.t.sustainedFor))
    + When(HasMemoryLimit(c) && c.state == "running"
           && MemoryShare(c) >= LimitFor(e, "memory_high", c.id, e.t.memoryPercent, PERCENT_HYSTERESIS),
           Raise(e, "memory_high", c.id, c.name, "warning", e.t.sustainedFor))
  }

  function ContainerConditions(e: Inputs, h: Host, c: Container): seq<Condition> {
    When(ContainerDown(e, c), Raise(e, "container_down", c.id, c.name, "critical", e.t.debounce))
    + When(RestartsOf(e, c.id) >= e.t.restartLoopCount, Raise(e, "restart_loop", c.id, c.name, "critical", 0))
    + When(c.health == "unhealthy", Raise(e, "health_failing", c.id, c.name, "warning", e.t.debounce))
    + LoadConditions(e, h, c)
  }

  function HostConditions(e: Inputs, h: Host): seq<Condition> {
    When(h.memTotal > 0
         && Percent(h.memUsed, h.memTotal)
             >= LimitFor(e, "host_memory_high", "host", e.t.memoryPercent, PERCENT_HYSTERESIS),
         Raise(e, "host_memory_high", "host", h.hostname, "warning", e.t.sustainedFor))
    + When(h.cpus > 0
           && h.cpuPercent >= LimitFor(e, "host_cpu_high", "host", e.t.cpuPercent, PERCENT_HYSTERESIS),
           Raise(e, "host_cpu_high", "host", h.hostname, "warning", e.t.sustainedFor))
  }

  function MountConditions(e: Inputs, m: MountUsage): seq<Condition> {
    When(m.total != 0
         && Percent(m.used, m.total) >= LimitFor(e, "disk_high", m.mount, e.t.diskPercent, PERCENT_HYSTERESIS),
         Raise(e, "disk_high", m.mount, m.mount, "warning", e.t.sustainedFor))
  }

  function DiskName(d: Disk): string {
    if d.model == "" then d.device else d.device + " (" + d.model + ")"
  }

  function DiskConditions(e: Inputs, d: Disk): seq<Condition> {
    When(!Healthy(d), Raise(e, "smart_failing", d.device, DiskName(d), "critical", 0))
    + When(!d.standby && d.temperature != 0
           && d.temperature as real
               >= LimitFor(e, "disk_temp_high", d.device, e.t.diskTemp as real, TEMP_HYSTERESIS as real),
           Raise(e, "disk_temp_high", d.device, DiskName(d), "warning", e.t.sustainedFor))
  }

  function ArrayConditions(e: Inputs, a: Array): seq<Condition> {
    When(!(a.active && !a.degraded), Raise(e, "raid_degraded", a.name, a.name + " " + a.level, "critical", 0))
  }

  function SourceConditions(e: Inputs, sources: map<string, SourceStatus>, name: string): seq<Condition> {
    When(name in sources && !sources[name].ok,
         Raise(e, "host_unreachable", name, name, "critical", e.t.hostUnreachableFor))
  }

  function SizeConditions(e: Inputs, dbBytes: int): seq<Condition> {
    When(e.t.dbMax > 0 && dbBytes > e.t.dbMax, Raise(e, "db_size", "sqlite", "dashboard.db", "warning", 0))
  }

  function Gather<A>(xs: seq<A>, f: A -> seq<Condition>): seq<Condition> {
    if xs == [] then [] else Gather(xs[..|xs| - 1], f) + f(xs[|xs| - 1])
  }

  function OfContainer(e: Inputs, h: Host): Container -> seq<Condition> { c => ContainerConditions(e, h, c) }
  function OfMount(e: Inputs): MountUsage -> seq<Condition> { m => MountConditions(e, m) }
  function OfDisk(e: Inputs): Disk -> seq<Condition> { d => DiskConditions(e, d) }
  function OfArray(e: Inputs): Array -> seq<Condition> { a => ArrayConditions(e, a) }
  function OfSource(e: Inputs, sources: map<string, SourceStatus>): string -> seq<Condition> {
    name => SourceConditions(e, sources, name)
  }

  /** One more element of a Gather. */
  lemma GatherStep<A>(xs: seq<A>, f: A -> seq<Condition>, i: nat)
    requires i < |xs|
    ensures Gather(xs[..i + 1], f) == Gather(xs[..i], f) + f(xs[i])
  {
    assert xs[..i + 1][..i] == xs[..i];
  }

  /** The host, its mounts and its drives. */
  function MachineConditions(e: Inputs, snap: Snapshot): seq<Condition> {
    HostConditions(e, snap.host) + Gather(snap.host.mounts, OfMount(e)) + Gather(snap.disks, OfDisk(e))
  }

  function Conditions(e: Inputs, snap: Snapshot): seq<Condition> {
    Gather(snap.containers, OfContainer(e, snap.host))
    + MachineConditions(e, snap)
    + Gather(snap.arrays, OfArray(e))
    + Gather(["docker", "portainer"], OfSource(e, snap.sources))
    + SizeConditions(e, snap.dbBytes)
  }

  /** The active map of Evaluate; of two conditions with one key the later one stays. */
  function ActiveMap(conds: seq<Condition>): map<Key, Condition> {
    if conds == [] then map[] else
      var last := conds[|conds| - 1];
      ActiveMap(conds[..|conds| - 1])[KeyOf(last.rule, last.target) := last]
  }

  lemma {:induction false} InGather<A>(xs: seq<A>, f: A -> seq<Condition>, c: Condition)
    ensures c in Gather(xs, f) <==> exists x :: x in xs && c in f(x)
  {
    if xs != [] {
      InGather(xs[..|xs| - 1], f, c);
      assert xs == xs[..|xs| - 1] + [xs[|xs| - 1]];
    }
  }

  /** A key is active exactly when some condition has it, and then maps to such a condition. */
  lemma {:induction false} InActiveMap(conds: seq<Condition>, k: Key)
    ensures k in ActiveMap(conds) <==> exists c :: c in conds && KeyOf(c.rule, c.target) == k
    ensures k in ActiveMap(conds) ==> (
      var c := ActiveMap(conds)[k];
      c in conds && KeyOf(c.rule, c.target) == k)
  {
    if conds != [] {
      InActiveMap(conds[..|conds| - 1], k);
      assert conds == conds[..|conds| - 1] + [conds[|conds| - 1]];
    }
  }

  /** Of several conditions with one key the last one is active. */
  lemma {:induction false} LastConditionStays(conds: seq<Condition>, k: Key) returns (i: int)
    ensures -1 <= i < |conds| && forall j | i < j < |conds| :: KeyOf(conds[j].rule, conds[j].target) != k
    ensures k in ActiveMap(conds) <==> i >= 0
    ensures i >= 0 ==> KeyOf(conds[i].rule, conds[i].target) == k && ActiveMap(conds)[k] == conds[i]
  {
    if conds == [] { return -1; }
    var last := |conds| - 1;
    if KeyOf(conds[last].rule, conds[last].target) == k { return last; }
    i := LastConditionStays(conds[..last], k);
    forall j | i < j < |conds| ensures KeyOf(conds[j].rule, conds[j].target) != k {
      if j < last { assert conds[..last][j] == conds[j]; }
    }
  }

  // Threshold rules in terms of readings.

  datatype Metric = ContainerCpu | ContainerMemory | HostMemory | HostCpu | MountFill | DriveTemperature

  function RuleName(m: Metric): string {
    match m
    case ContainerCpu => "cpu_high"
    case ContainerMemory => "memory_high"
    case HostMemory => "host_memory_high"
    case HostCpu => "host_cpu_high"
    case MountFill => "disk_high"
    case DriveTemperature => "disk_temp_high"
  }

  function LimitOf(t: Thresholds, m: Metric): real {
    match m
    case ContainerCpu => t.cpuPercent
    case HostCpu => t.cpuPercent
    case ContainerMemory => t.memoryPercent
    case HostMemory => t.memoryPercent
    case MountFill => t.diskPercent
    case DriveTemperature => t.diskTemp as real
  }

  function BandOf(m: Metric): real {
    if m.DriveTemperature? then TEMP_HYSTERESIS as real else PERCENT_HYSTERESIS
  }

  /** The values a snapshot offers for a metric of a target; none when the metric is unavailable. */
  ghost function Readings(snap: Snapshot, m: Metric, target: string): set<real> {
    match m
    case ContainerCpu =>
      set c | c in snap.containers && c.id == target && c.live.Some? && c.state == "running" :: CpuShare(snap.host, c)
    case ContainerMemory =>
      set c | c in snap.containers && c.id == target && c.state == "running"
              && c.live.Some? && c.live.value.memLimit > 0 && c.memoryLimit > 0 ::
          Percent(c.live.value.memBytes, c.live.value.memLimit)
    case HostMemory =>
      if target == "host" && snap.host.memTotal > 0 then {Percent(snap.host.memUsed, snap.host.memTotal)} else {}
    case HostCpu =>
      if target == "host" && snap.host.cpus > 0 then {snap.host.cpuPercent} else {}
    case MountFill =>
      set x | x in snap.host.mounts && x.mount == target && x.total != 0 :: Percent(x.used, x.total)
    case DriveTemperature =>
      set d | d in snap.disks && d.device == target && !d.standby && d.temperature != 0 :: d.temperature as real
  }

  /** A container's CPU in percent of what it may use: its limit if it has one, else the host's CPUs if they are known,
      else one CPU. */
  lemma CpuShareMeans(h: Host, c: Container)
    requires c.live.Some?
    ensures c.cpuLimit > 0.0 ==> CpuShare(h, c) * c.cpuLimit == c.live.value.cpuPercent
    ensures c.cpuLimit <= 0.0 && h.cpus > 0 ==> CpuShare(h, c) * h.cpus as real == c.live.value.cpuPercent
    ensures c.cpuLimit <= 0.0 && h.cpus <= 0 ==> CpuShare(h, c) == c.live.value.cpuPercent
  {
    var percent := c.live.value.cpuPercent;
    if c.cpuLimit > 0.0 { assert percent / c.cpuLimit * c.cpuLimit == percent; }
    else if h.cpus > 0 { assert percent / h.cpus as real * h.cpus as real == percent; }
  }

  /** 100 of the part for every one of the whole. */
  lemma PercentMeans(part: nat, whole: nat)
    requires whole > 0
    ensures Percent(part, whole) * whole as real == 100.0 * part as real
  {
    assert part as real / whole as real * whole as real == part as real;
  }

  /** Some item of the snapshot has the target and is shown under the name. */
  ghost predicate IsMetricName(snap: Snapshot, m: Metric, target: string, name: string) {
    match m
    case ContainerCpu => exists c :: c in snap.containers && c.id == target && c.name == name
    case ContainerMemory => exists c :: c in snap.containers && c.id == target && c.name == name
    case HostMemory => name == snap.host.hostname
    case HostCpu => name == snap.host.hostname
    case MountFill => name == target
    case DriveTemperature =>
      exists d :: d in snap.disks && d.device == target
                  && name == if d.model == "" then target else target + " (" + d.model + ")"
  }

  const RULES: set<string> := {
    "container_down", "restart_loop", "health_failing", "cpu_high", "memory_high", "host_memory_high", "host_cpu_high",
    "disk_high", "smart_failing", "disk_temp_high", "raid_degraded", "host_unreachable", "db_size"}

  lemma RulesHaveNoBar(rule: string)
    requires rule in RULES
    ensures '|' !in rule
  {}

  lemma {:induction false} InConditions(e: Inputs, snap: Snapshot, c: Condition)
    ensures c in Conditions(e, snap) <==>
      || (exists x :: x in snap.containers && c in ContainerConditions(e, snap.host, x))
      || c in HostConditions(e, snap.host)
      || (exists x :: x in snap.host.mounts && c in MountConditions(e, x))
      || (exists x :: x in snap.disks && c in DiskConditions(e, x))
      || (exists x :: x in snap.arrays && c in ArrayConditions(e, x))
      || (exists x :: x in ["docker", "portainer"] && c in SourceConditions(e, snap.sources, x))
      || c in SizeConditions(e, snap.dbBytes)
  {
    hide ContainerConditions, HostConditions, MountConditions, DiskConditions, ArrayConditions,
      SourceConditions, SizeConditions, Gather;
    InGather(snap.containers, OfContainer(e, snap.host), c);
    InGather(snap.host.mounts, OfMount(e), c);
    InGather(snap.disks, OfDisk(e), c);
    InGather(snap.arrays, OfArray(e), c);
    InGather(["docker", "portainer"], OfSource(e, snap.sources), c);
  }

  lemma ConditionsNameRules(e: Inputs, snap: Snapshot, c: Condition)
    requires c in Conditions(e, snap)
    ensures c.rule in RULES
  {
    hide Conditions, ContainerDown, Healthy, LimitFor, Percent, CpuShare, MemoryShare;
    InConditions(e, snap, c);
  }

  /** Which conditions of each source carry the rule of a metric. */
  lemma MetricInContainer(e: Inputs, h: Host, x: Container, m: Metric, c: Condition)
    requires c.rule == RuleName(m)
    ensures c in ContainerConditions(e, h, x) <==>
      || (m.ContainerCpu? && x.live.Some? && x.state == "running"
          && CpuShare(h, x) >= LimitFor(e, "cpu_high", x.id, e.t.cpuPercent, PERCENT_HYSTERESIS)
          && c == Raise(e, "cpu_high", x.id, x.name, "warning", e.t.sustainedFor))
      || (m.ContainerMemory? && HasMemoryLimit(x) && x.state == "running"
          && MemoryShare(x) >= LimitFor(e, "memory_high", x.id, e.t.memoryPercent, PERCENT_HYSTERESIS)
          && c == Raise(e, "memory_high", x.id, x.name, "warning", e.t.sustainedFor))
  {
    assert c.rule !in {"container_down", "restart_loop", "health_failing"};
  }

  lemma MetricInHost(e: Inputs, h: Host, m: Metric, c: Condition)
    requires c.rule == RuleName(m)
    ensures c in HostConditions(e, h) <==>
      || (m.HostMemory? && h.memTotal > 0
          && Percent(h.memUsed, h.memTotal)
              >= LimitFor(e, "host_memory_high", "host", e.t.memoryPercent, PERCENT_HYSTERESIS)
          && c == Raise(e, "host_memory_high", "host", h.hostname, "warning", e.t.sustainedFor))
      || (m.HostCpu? && h.cpus > 0
          && h.cpuPercent >= LimitFor(e, "host_cpu_high", "host", e.t.cpuPercent, PERCENT_HYSTERESIS)
          && c == Raise(e, "host_cpu_high", "host", h.hostname, "warning", e.t.sustainedFor))
  {}

  lemma MetricInMount(e: Inputs, x: MountUsage, m: Metric, c: Condition)
    requires c.rule == RuleName(m)
    ensures c in MountConditions(e, x) <==>
      m.MountFill? && x.total != 0
      && Percent(x.used, x.total) >= LimitFor(e, "disk_high", x.mount, e.t.diskPercent, PERCENT_HYSTERESIS)
      && c == Raise(e, "disk_high", x.mount, x.mount, "warning", e.t.sustainedFor)
  {}

  lemma MetricInDisk(e: Inputs, x: Disk, m: Metric, c: Condition)
    requires c.rule == RuleName(m)
    ensures c in DiskConditions(e, x) <==>
      m.DriveTemperature? && !x.standby && x.temperature != 0
      && x.temperature as real >= LimitFor(e, "disk_temp_high", x.device, e.t.diskTemp as real, TEMP_HYSTERESIS as real)
      && c == Raise(e, "disk_temp_high", x.device, DiskName(x), "warning", e.t.sustainedFor)
  {
    assert c.rule != "smart_failing";
  }

  lemma MetricElsewhere(e: Inputs, snap: Snapshot, m: Metric, c: Condition)
    requires c.rule == RuleName(m)
    ensures forall x: Array :: c !in ArrayConditions(e, x)
    ensures forall x: string :: c !in SourceConditions(e, snap.sources, x)
    ensures c !in SizeConditions(e, snap.dbBytes)
  {
    assert c.rule !in {"raid_degraded", "host_unreachable", "db_size"};
  }

  lemma {:induction false} MetricInConditions(e: Inputs, snap: Snapshot, m: Metric, c: Condition)
    requires c.rule == RuleName(m)
    ensures c in Conditions(e, snap) <==>
      match m
      case ContainerCpu => exists x :: x in snap.containers && c in ContainerConditions(e, snap.host, x)
      case ContainerMemory => exists x :: x in snap.containers && c in ContainerConditions(e, snap.host, x)
      case HostMemory => c in HostConditions(e, snap.host)
      case HostCpu => c in HostConditions(e, snap.host)
      case MountFill => exists x :: x in snap.host.mounts && c in MountConditions(e, x)
      case DriveTemperature => exists x :: x in snap.disks && c in DiskConditions(e, x)
  {
    InConditions(e, snap, c);
    MetricElsewhere(e, snap, m, c);
    forall x: Container { MetricInContainer(e, snap.host, x, m, c); }
    MetricInHost(e, snap.host, m, c);
    forall x: MountUsage { MetricInMount(e, x, m, c); }
    forall x: Disk { MetricInDisk(e, x, m, c); }
  }

  /** A raised metric condition stands on a reading that reaches the limit in force. */
  lemma MetricConditionHasReading(e: Inputs, snap: Snapshot, m: Metric, c: Condition)
    requires c in Conditions(e, snap) && c.rule == RuleName(m)
    ensures c.holdFor == e.t.sustainedFor && c.severity == "warning" && c.message == e.say(RuleName(m), c.target)
    ensures IsMetricName(snap, m, c.target, c.targetName)
    ensures Reaches(Readings(snap, m, c.target), LimitFor(e, RuleName(m), c.target, LimitOf(e.t, m), BandOf(m)))
  {
    hide Conditions, ContainerConditions, MountConditions, DiskConditions, LimitFor;
    MetricInConditions(e, snap, m, c);
    match m
    case ContainerCpu =>
      var x :| x in snap.containers && c in ContainerConditions(e, snap.host, x);
      MetricInContainer(e, snap.host, x, m, c);
      assert CpuShare(snap.host, x) in Readings(snap, m, c.target);
    case ContainerMemory =>
      var x :| x in snap.containers && c in ContainerConditions(e, snap.host, x);
      MetricInContainer(e, snap.host, x, m, c);
      assert MemoryShare(x) in Readings(snap, m, c.target);
    case HostMemory => MetricInHost(e, snap.host, m, c);
    case HostCpu => MetricInHost(e, snap.host, m, c);
    case MountFill =>
      var x :| x in snap.host.mounts && c in MountConditions(e, x);
      MetricInMount(e, x, m, c);
      assert Percent(x.used, x.total) in Readings(snap, m, c.target);
    case DriveTemperature =>
      var x :| x in snap.disks && c in DiskConditions(e, x);
      MetricInDisk(e, x, m, c);
      assert x.temperature as real in Readings(snap, m, c.target);
  }

  /** A reading that reaches the limit in force raises the metric's condition. */
  lemma ReadingRaisesMetricCondition(e: Inputs, snap: Snapshot, m: Metric, target: string) returns (c: Condition)
    requires Reaches(Readings(snap, m, target), LimitFor(e, RuleName(m), target, LimitOf(e.t, m), BandOf(m)))
    ensures c in Conditions(e, snap) && c.rule == RuleName(m) && c.target == target
  {
    hide Conditions, ContainerConditions, LimitFor;
    var limit := LimitFor(e, RuleName(m), target, LimitOf(e.t, m), BandOf(m));
    var name := snap.host.hostname;
    match m {
      case ContainerCpu =>
        var x :| x in snap.containers && x.id == target && x.live.Some? && x.state == "running"
                  && CpuShare(snap.host, x) >= limit;
        name := x.name;
        MetricInContainer(e, snap.host, x, m, Raise(e, RuleName(m), target, name, "warning", e.t.sustainedFor));
      case ContainerMemory =>
        var x :| x in snap.containers && x.id == target && HasMemoryLimit(x) && x.state == "running"
                  && MemoryShare(x) >= limit;
        name := x.name;
        MetricInContainer(e, snap.host, x, m, Raise(e, RuleName(m), target, name, "warning", e.t.sustainedFor));
      case HostMemory =>
      case HostCpu =>
      case MountFill =>
        var x :| x in snap.host.mounts && x.mount == target && x.total != 0 && Percent(x.used, x.total) >= limit;
        name := x.mount;
      case DriveTemperature =>
        var x :| x in snap.disks && x.device == target && !x.standby && x.temperature != 0
                  && x.temperature as real >= limit;
        name := DiskName(x);
        MetricInDisk(e, x, m, Raise(e, RuleName(m), target, name, "warning", e.t.sustainedFor));
    }
    c := Raise(e, RuleName(m), target, name, "warning", e.t.sustainedFor);
    MetricInConditions(e, snap, m, c);
    if m.HostMemory? || m.HostCpu? { MetricInHost(e, snap.host, m, c); }
  }

  /** The key of a metric rule is active exactly when some reading reaches the limit, lowered by the rule's band while
      its alert fires; it is then a warning with the sustained-for hold time, its message and a name of its target. */
  lemma MetricKeyActive(e: Inputs, snap: Snapshot, m: Metric, target: string)
    ensures var k, active := KeyOf(RuleName(m), target), ActiveMap(Conditions(e, snap));
      && (k in active <==>
          Reaches(Readings(snap, m, target), if k in e.firing then LimitOf(e.t, m) - BandOf(m) else LimitOf(e.t, m)))
      && (k in active ==>
            active[k].rule == RuleName(m) && active[k].target == target && active[k].severity == "warning"
            && active[k].message == e.say(RuleName(m), target) && active[k].holdFor == e.t.sustainedFor
            && IsMetricName(snap, m, target, active[k].targetName))
    ensures BandOf(m) == if m.DriveTemperature? then 3.0 else 5.0
  {
    hide Readings, Conditions, ActiveMap, IsMetricName, KeyOf;
    var k, conds := KeyOf(RuleName(m), target), Conditions(e, snap);
    InActiveMap(conds, k);
    RulesHaveNoBar(RuleName(m));
    if k in ActiveMap(conds) {
      var c := ActiveMap(conds)[k];
      ConditionsNameRules(e, snap, c);
      RulesHaveNoBar(c.rule);
      KeysAreDistinct(c.rule, c.target, RuleName(m), target);
      MetricConditionHasReading(e, snap, m, c);
    }
    if Reaches(Readings(snap, m, target), LimitFor(e, RuleName(m), target, LimitOf(e.t, m), BandOf(m))) {
      var c := ReadingRaisesMetricCondition(e, snap, m, target);
    }
  }
}
