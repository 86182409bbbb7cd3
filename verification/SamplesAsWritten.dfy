/** The rows of a report and their samples: for each row of each builder the metrics, labels and values it yields
(internal/powerscale/derivations.go). Module NamesAsWritten gives the exported names. */
module SamplesAsWritten {
  import opened Wrappers
  import opened Strings
  import opened Metrics
  import opened Inventory
  import opened Derivations
  import opened TextAsWritten

  // The labels of a sample: the cluster's, then its own.
  function Of(c: string, id: string, own: seq<Label>): seq<Label> {
    [Label(LCluster, c), Label(LClusterId, id)] + own
  }

  // ---------------------------------------------------------------- samples of a row

  lemma {:induction false} InRows<T>(rows: seq<T>, f: T -> seq<Sample>, s: Sample)
    ensures s in FlatMap(rows, f) <==> exists r :: r in rows && s in f(r)
  {
    if rows != [] {
      var rest, last := rows[..|rows| - 1], rows[|rows| - 1];
      InRows(rest, f, s);
      assert rows == rest + [last];
    }
  }

  lemma InBoth(a: seq<Sample>, b: seq<Sample>, s: Sample)
    ensures s in a + b <==> s in a || s in b
  {
  }

  lemma InTwo(a: Sample, b: Sample, s: Sample)
    ensures s in [a, b] <==> s == a || s == b
  {
  }

  lemma InShared(labels: seq<Label>, values: seq<(Metric, real)>, s: Sample)
    ensures s in Shared(labels, values) <==> s.labels == labels && (s.metric, s.value) in values
  {
    var row := Shared(labels, values);
    if s.labels == labels && (s.metric, s.value) in values {
      var i :| 0 <= i < |values| && values[i] == (s.metric, s.value);
      assert row[i] == s;
    }
  }

  lemma InIfPositive(m: Metric, x: real, pair: (Metric, real))
    ensures pair in IfPositive(m, x) <==> x > 0.0 && pair == (m, x)
  {
  }

  // ---------------------------------------------------------------- storage pools

  predicate PoolSays(c: string, id: string, p: StoragePool, s: Sample) {
    && s.labels == Of(c, id, [Label(LPool, p.name), Label(LType, p.kind)])
    && match s.metric
       case PoolTotal => s.value == p.total
       case PoolUsed => s.value == p.used
       case PoolAvailable => s.value == p.avail
       case PoolSsdTotal => s.value == p.ssdTotal
       case PoolSsdUsed => s.value == p.ssdUsed
       case PoolSsdAvailable => s.value == p.ssdAvail
       case PoolHddTotal => s.value == p.hddTotal
       case PoolHddUsed => s.value == p.hddUsed
       case PoolHddAvailable => s.value == p.hddAvail
       case _ => false
  }

  /** A pool or tier yields its nine capacities. */
  lemma PoolAsWritten(c: string, id: string, p: StoragePool, s: Sample)
    ensures s in PoolRow(c, id)(p) <==> PoolSays(c, id, p, s)
  {
    InShared(StoragePoolLabels(c, id, p.name, p.kind), PoolValues(p), s);
  }

  // ---------------------------------------------------------------- quotas

  predicate QuotaSays(c: string, id: string, q: Quota, s: Sample) {
    && s.labels == Of(c, id, [Label(LQuotaId, q.id), Label(LQuotaPath, q.path), Label(LQuotaType, q.kind)])
    && match s.metric
       case QuotaUsage => s.value == q.usage
       case QuotaApplicationUsage => s.value == q.appLogical
       case QuotaPhysicalUsage => s.value == q.physical > 0.0
       case QuotaReductionRatio => s.value == q.reductionRatio > 0.0
       case QuotaHardThreshold => s.value == q.hard > 0.0
       case QuotaSoftThreshold => s.value == q.soft > 0.0
       case QuotaAdvisoryThreshold => s.value == q.advisory > 0.0
       case _ => false
  }

  /** A quota yields its usage and application usage, and the rest where it is positive. */
  lemma QuotaAsWritten(c: string, id: string, q: Quota, s: Sample)
    ensures s in QuotaRow(c, id)(q) <==> QuotaSays(c, id, q, s)
  {
    var pair := (s.metric, s.value);
    InShared(QuotaLabels(c, id, q.id, q.path, q.kind), QuotaValues(q), s);
    InIfPositive(QuotaPhysicalUsage, q.physical, pair);
    InIfPositive(QuotaReductionRatio, q.reductionRatio, pair);
    InIfPositive(QuotaHardThreshold, q.hard, pair);
    InIfPositive(QuotaSoftThreshold, q.soft, pair);
    InIfPositive(QuotaAdvisoryThreshold, q.advisory, pair);
  }

  // ---------------------------------------------------------------- drives, clients, workloads

  predicate DriveSays(c: string, id: string, d: DriveStat, s: Sample) {
    && s.labels == Of(c, id, [Label(LNode, Itoa(d.node)), Label(LBay, d.bay), Label(LType, d.kind)])
    && match s.metric
       case DriveOperations => s.value == d.opsPerSec
       case DriveBusy => s.value == d.busyPercent
       case _ => false
  }

  lemma DriveAsWritten(c: string, id: string, d: DriveStat, s: Sample)
    ensures s in DriveStatRow(c, id)(d) <==> DriveSays(c, id, d, s)
  {
    InShared(DriveStatLabels(c, id, Itoa(d.node), d.bay, d.kind),
             [(DriveOperations, d.opsPerSec), (DriveBusy, d.busyPercent)], s);
  }

  predicate ClientSays(c: string, id: string, r: ClientStat, s: Sample) {
    && s.labels == Of(c, id, [Label(LNode, Itoa(r.node)), Label(LProtocol, r.protocol), Label(LClass, r.protocolClass)])
    && match s.metric
       case ClientOperations => s.value == r.opsPerSec
       case ClientIn => s.value == r.inBps
       case ClientOut => s.value == r.outBps
       case _ => false
  }

  lemma ClientAsWritten(c: string, id: string, r: ClientStat, s: Sample)
    ensures s in ClientRow(c, id)(r) <==> ClientSays(c, id, r, s)
  {
    InShared(ClientLabels(c, id, Itoa(r.node), r.protocol, r.protocolClass), ClientValues(r), s);
  }

  predicate WorkloadSays(c: string, id: string, w: Workload, s: Sample) {
    && s.labels == Of(c, id,
         [Label(LNode, Itoa(w.node)), Label(LZone, w.zone), Label(LProtocol, w.protocol),
          Label(LUsername, w.username), Label(LSystemName, w.systemName), Label(LJobType, w.jobType)])
    && match s.metric
       case WorkloadOperations => s.value == w.ops
       case WorkloadIn => s.value == w.bytesIn
       case WorkloadOut => s.value == w.bytesOut
       case WorkloadCpu => s.value == w.cpuMicros / 1000000.0
       case _ => false
  }

  /** A workload yields its rates, its processor time in seconds. */
  lemma WorkloadAsWritten(c: string, id: string, w: Workload, s: Sample)
    ensures s in WorkloadRow(c, id)(w) <==> WorkloadSays(c, id, w, s)
  {
    InShared(WorkloadLabels(c, id, Itoa(w.node), w.zone, w.protocol, w.username, w.systemName, w.jobType), WorkloadValues(w), s);
  }

  // ---------------------------------------------------------------- protocols

  // The stages a latency is split into.
  predicate IsStage(stage: string) {
    stage == "auth" || stage == "export" || stage == "fha_blocking" || stage == "fiber_block_quota" || stage == "kernel" ||
    stage == "spark_dispatch" || stage == "total_elapsed"
  }

  predicate StageSays(labels: seq<Label>, p: ProtoStat, stage: string, s: Sample) {
    stage in p.stageAvg && s.labels == labels + [Label(LStage, stage)] && s.value == p.stageAvg[stage] / 1000000.0
  }

  ghost predicate ProtocolSays(c: string, id: string, p: ProtoStat, s: Sample) {
    var labels := Of(c, id, [Label(LNode, Itoa(p.node)), Label(LProtocol, p.protocol), Label(LOp, p.operation)]);
    match s.metric
    case ProtocolOperations => s.labels == labels && s.value == p.operationRate
    case ProtocolLatency => s.labels == labels && s.value == p.latencyAvg / 1000000.0
    case ProtocolLatencyStage => exists stage :: IsStage(stage) && StageSays(labels, p, stage, s)
    case _ => false
  }

  lemma StagesAsWritten(stage: string)
    ensures stage in PROTOCOL_STAGES <==> IsStage(stage)
  {
    assert stage in PROTOCOL_STAGES ==>
      || stage == PROTOCOL_STAGES[0] || stage == PROTOCOL_STAGES[1] || stage == PROTOCOL_STAGES[2] || stage == PROTOCOL_STAGES[3]
      || stage == PROTOCOL_STAGES[4] || stage == PROTOCOL_STAGES[5] || stage == PROTOCOL_STAGES[6];
  }

  lemma InStages(labels: seq<Label>, p: ProtoStat, s: Sample)
    ensures s in ProtoStages(labels, p) <==>
            s.metric == ProtocolLatencyStage && exists stage :: IsStage(stage) && StageSays(labels, p, stage, s)
  {
    InRows(PROTOCOL_STAGES, StageRow(labels, p), s);
    forall stage ensures s in StageRow(labels, p)(stage) <==> s.metric == ProtocolLatencyStage && StageSays(labels, p, stage, s) {
    }
    forall stage ensures stage in PROTOCOL_STAGES <==> IsStage(stage) {
      StagesAsWritten(stage);
    }
  }

  lemma InTotals(labels: seq<Label>, p: ProtoStat, s: Sample)
    ensures s in ProtoTotals(labels, p) <==>
            || s == Sample(ProtocolOperations, labels, p.operationRate)
            || s == Sample(ProtocolLatency, labels, p.latencyAvg / 1000000.0)
  {
  }

  lemma ProtocolSaysByLabels(c: string, id: string, p: ProtoStat, labels: seq<Label>, s: Sample)
    requires labels == Of(c, id, [Label(LNode, Itoa(p.node)), Label(LProtocol, p.protocol), Label(LOp, p.operation)])
    ensures ProtocolSays(c, id, p, s) <==>
            || s == Sample(ProtocolOperations, labels, p.operationRate)
            || s == Sample(ProtocolLatency, labels, p.latencyAvg / 1000000.0)
            || (s.metric == ProtocolLatencyStage && exists stage :: IsStage(stage) && StageSays(labels, p, stage, s))
  {
  }

  lemma ProtocolLabelsAsWritten(c: string, id: string, p: ProtoStat)
    ensures ProtocolLabels(c, id, Itoa(p.node), p.protocol, p.operation)
         == Of(c, id, [Label(LNode, Itoa(p.node)), Label(LProtocol, p.protocol), Label(LOp, p.operation)])
  {
  }

  lemma InProtocol(labels: seq<Label>, p: ProtoStat, s: Sample)
    ensures s in ProtoTotals(labels, p) + ProtoStages(labels, p) <==>
            || s == Sample(ProtocolOperations, labels, p.operationRate)
            || s == Sample(ProtocolLatency, labels, p.latencyAvg / 1000000.0)
            || (s.metric == ProtocolLatencyStage && exists stage :: IsStage(stage) && StageSays(labels, p, stage, s))
  {
    InStages(labels, p, s);
    InTotals(labels, p, s);
    InBoth(ProtoTotals(labels, p), ProtoStages(labels, p), s);
  }

  /** A protocol row yields its rate and its latency in seconds, and the latency of each known stage it reports. */
  lemma ProtocolAsWritten(c: string, id: string, p: ProtoStat, s: Sample)
    ensures s in ProtoRow(c, id)(p) <==> ProtocolSays(c, id, p, s)
  {
    var labels := ProtocolLabels(c, id, Itoa(p.node), p.protocol, p.operation);
    ProtocolLabelsAsWritten(c, id, p);
    InProtocol(labels, p, s);
    ProtocolSaysByLabels(c, id, p, labels, s);
  }

  // ---------------------------------------------------------------- nodes

  predicate DriveStateSays(c: string, id: string, n: Node, state: string, s: Sample) {
    && state in n.drivesByState && s.value == n.drivesByState[state] as real
    && s.labels == Of(c, id, [Label(LNode, Itoa(n.lnn)), Label(LState, state)])
  }

  predicate HealthSays(c: string, id: string, n: Node, s: Sample) {
    match s.metric
    case NodeReadonly => s.labels == Of(c, id, [Label(LNode, Itoa(n.lnn))]) && s.value == if n.readonly then 1.0 else 0.0
    case NodeSmartfail => s.labels == Of(c, id, [Label(LNode, Itoa(n.lnn))]) && s.value == if n.smartfail then 1.0 else 0.0
    case NodeDrives => exists state :: state in n.drivesByState && DriveStateSays(c, id, n, state, s)
    case _ => false
  }

  lemma InDriveStates(c: string, id: string, n: Node, order: seq<string>, s: Sample)
    requires Enumerates(order, n.drivesByState)
    ensures s in FlatMap(order, DriveRow(c, id, n)) <==>
            s.metric == NodeDrives && exists state :: state in n.drivesByState && DriveStateSays(c, id, n, state, s)
  {
    InRows(order, DriveRow(c, id, n), s);
    forall state | state in order
      ensures s in DriveRow(c, id, n)(state) <==> s.metric == NodeDrives && DriveStateSays(c, id, n, state, s)
    {
    }
  }

  function NodeStates(c: string, id: string, n: Node): seq<Sample> {
    var base := NodeLabels(c, id, Itoa(n.lnn));
    [Sample(NodeReadonly, base, B2F(n.readonly)), Sample(NodeSmartfail, base, B2F(n.smartfail))]
  }

  lemma InNodeStates(c: string, id: string, n: Node, s: Sample)
    ensures s in NodeStates(c, id, n) <==> s.metric != NodeDrives && HealthSays(c, id, n, s)
  {
    var base := NodeLabels(c, id, Itoa(n.lnn));
    assert base == Of(c, id, [Label(LNode, Itoa(n.lnn))]);
    InTwo(Sample(NodeReadonly, base, B2F(n.readonly)), Sample(NodeSmartfail, base, B2F(n.smartfail)), s);
  }

  /** A node yields its two states, and one drive count for each drive state. */
  lemma HealthAsWritten(c: string, id: string, n: Node, order: seq<string>, s: Sample)
    requires Enumerates(order, n.drivesByState)
    ensures s in NodeHealthRow(c, id, n, order) <==> HealthSays(c, id, n, s)
  {
    InDriveStates(c, id, n, order, s);
    InNodeStates(c, id, n, s);
    InBoth(NodeStates(c, id, n), FlatMap(order, DriveRow(c, id, n)), s);
  }

  ghost predicate HardwareSays(c: string, id: string, n: Node, s: Sample) {
    match s.metric
    case NodeHardwareInfo =>
      && (n.product != "" || n.series != "" || n.hwgen != "") && s.value == 1.0
      && s.labels == Of(c, id,
           [Label(LNode, Itoa(n.lnn)), Label(LProduct, n.product), Label(LSeries, n.series), Label(LHwgen, n.hwgen)])
    case NodePowerSupplies =>
      n.powerSupplies > 0 && s.labels == Of(c, id, [Label(LNode, Itoa(n.lnn))]) && s.value == n.powerSupplies as real
    case NodePowerSupplyFailures =>
      n.powerSupplies > 0 && s.labels == Of(c, id, [Label(LNode, Itoa(n.lnn))]) && s.value == n.powerSupplyFailures as real
    case NodeTemperature => SensorSays(c, id, n, n.temperatures, s)
    case NodeFanSpeed => SensorSays(c, id, n, n.fans, s)
    case _ => false
  }

  ghost predicate SensorSays(c: string, id: string, n: Node, sensors: seq<Sensor>, s: Sample) {
    exists r :: r in sensors && s.labels == Of(c, id, [Label(LNode, Itoa(n.lnn)), Label(LSensor, r.name)]) && s.value == r.value
  }

  lemma InSensors(m: Metric, c: string, id: string, n: Node, sensors: seq<Sensor>, s: Sample)
    ensures s in FlatMap(sensors, SensorRow(m, c, id, n)) <==> s.metric == m && SensorSays(c, id, n, sensors, s)
  {
    InRows(sensors, SensorRow(m, c, id, n), s);
    forall r | r in sensors
      ensures s in SensorRow(m, c, id, n)(r) <==>
              s.metric == m && s.labels == Of(c, id, [Label(LNode, Itoa(n.lnn)), Label(LSensor, r.name)]) && s.value == r.value
    {
      assert SensorLabels(c, id, Itoa(n.lnn), r.name) == Of(c, id, [Label(LNode, Itoa(n.lnn)), Label(LSensor, r.name)]);
    }
  }

  lemma InHardwareInfo(c: string, id: string, n: Node, s: Sample)
    ensures s in HardwareInfo(c, id, n) <==> s.metric == NodeHardwareInfo && HardwareSays(c, id, n, s)
  {
  }

  lemma InPowerSupplies(c: string, id: string, n: Node, s: Sample)
    ensures s in PowerSupplySamples(c, id, n) <==>
            (s.metric == NodePowerSupplies || s.metric == NodePowerSupplyFailures) && HardwareSays(c, id, n, s)
  {
    InShared(NodeLabels(c, id, Itoa(n.lnn)),
             [(NodePowerSupplies, n.powerSupplies as real), (NodePowerSupplyFailures, n.powerSupplyFailures as real)], s);
  }

  lemma HardwareByParts(c: string, id: string, n: Node, s: Sample,
                        info: seq<Sample>, power: seq<Sample>, temps: seq<Sample>, fans: seq<Sample>)
    requires s in info <==> s.metric == NodeHardwareInfo && HardwareSays(c, id, n, s)
    requires s in power <==> (s.metric == NodePowerSupplies || s.metric == NodePowerSupplyFailures) && HardwareSays(c, id, n, s)
    requires s in temps <==> s.metric == NodeTemperature && SensorSays(c, id, n, n.temperatures, s)
    requires s in fans <==> s.metric == NodeFanSpeed && SensorSays(c, id, n, n.fans, s)
    ensures s in info + power + temps + fans <==> HardwareSays(c, id, n, s)
  {
    InBoth(info, power, s);
    InBoth(info + power, temps, s);
    InBoth(info + power + temps, fans, s);
  }

  /** A node yields its identity unless all of it is empty, its power supplies where it has some, and its sensors. */
  lemma HardwareAsWritten(c: string, id: string, n: Node, s: Sample)
    ensures s in HardwareOf(c, id, n) <==> HardwareSays(c, id, n, s)
  {
    InHardwareInfo(c, id, n, s);
    InPowerSupplies(c, id, n, s);
    InSensors(NodeTemperature, c, id, n, n.temperatures, s);
    InSensors(NodeFanSpeed, c, id, n, n.fans, s);
    HardwareByParts(c, id, n, s, HardwareInfo(c, id, n), PowerSupplySamples(c, id, n),
                    FlatMap(n.temperatures, SensorRow(NodeTemperature, c, id, n)),
                    FlatMap(n.fans, SensorRow(NodeFanSpeed, c, id, n)));
  }

  // ---------------------------------------------------------------- replication, events, licenses

  predicate PolicySays(c: string, id: string, p: SyncPolicy, s: Sample) {
    && s.labels == Of(c, id, [Label(LPolicy, p.name)])
    && match s.metric
       case SyncIqEnabled => s.value == if p.enabled then 1.0 else 0.0
       case SyncIqLastRunFailed =>
         var state := p.lastJobState;
         s.value == if state == "failed" || state == "needs_attention" || state == "unknown" then 1.0 else 0.0
       case _ => false
  }

  lemma PolicyAsWritten(c: string, id: string, p: SyncPolicy, s: Sample)
    ensures s in SyncRow(c, id)(p) <==> PolicySays(c, id, p, s)
  {
  }

  predicate EventSays(c: string, id: string, events: map<string, int>, severity: string, s: Sample) {
    && severity in events && s.metric == ActiveEvents
    && s.labels == Of(c, id, [Label(LSeverity, severity)]) && s.value == events[severity] as real
  }

  lemma EventAsWritten(c: string, id: string, events: map<string, int>, severity: string, s: Sample)
    ensures s in EventRow(c, id, events)(severity) <==> EventSays(c, id, events, severity, s)
  {
  }

  // A status that, trimmed, is one of three words in whatever case.
  ghost predicate Usable(status: string) {
    exists word :: Trims(status, word) &&
      (LowersToWord(word, "licensed") || LowersToWord(word, "activated") || LowersToWord(word, "evaluation"))
  }

  lemma UsableIsActive(status: string)
    ensures IsActive(status) <==> Usable(status)
  {
    var word := TrimSpace(status);
    TrimSpaceAsWritten(status, word);
    LowerAsWritten(word, "licensed");
    LowerAsWritten(word, "activated");
    LowerAsWritten(word, "evaluation");
    forall other | Trims(status, other) ensures other == word {
      TrimSpaceAsWritten(status, other);
    }
  }

  ghost predicate LicenseSays(c: string, id: string, l: License, s: Sample) {
    match s.metric
    case LicenseExpiration => s.labels == Of(c, id, [Label(LName, l.name)]) && s.value == l.expirationUnix as real
    case LicenseActive =>
      && s.labels == Of(c, id, [Label(LName, l.name), Label(LStatus, l.status)])
      && (Usable(l.status) ==> s.value == 1.0) && (!Usable(l.status) ==> s.value == 0.0)
    case _ => false
  }

  /** A license yields its expiry, and whether its status is a usable one. */
  lemma LicenseAsWritten(c: string, id: string, l: License, s: Sample)
    ensures s in LicenseRow(c, id)(l) <==> LicenseSays(c, id, l, s)
  {
    UsableIsActive(l.status);
    InTwo(Sample(LicenseExpiration, LicenseLabels(c, id, l.name), l.expirationUnix as real),
          Sample(LicenseActive, LicenseActiveLabels(c, id, l.name, l.status), B2F(IsActive(l.status))), s);
  }

  // ---------------------------------------------------------------- single values

  predicate SingleSays(c: string, inv: Inventory, s: Sample) {
    && s.labels == Of(c, inv.guid, [])
    && match s.metric
       case NfsExports => s.value == inv.counts.nfsExports as real
       case SmbShares => s.value == inv.counts.smbShares as real
       case Snapshots => s.value == inv.counts.snapshots as real
       case SnapshotUsed => s.value == inv.snapshotUsed
       case DedupeLogicalSaved => s.value == inv.dedupe.logicalSaved
       case DedupeDeduplicated => s.value == inv.dedupe.deduplicated
       case _ => false
  }

  /** The counts, the snapshot usage and the deduplication savings are always there, zero included. */
  lemma SinglesAsWritten(c: string, inv: Inventory, s: Sample)
    ensures || s in CountSamples(c, inv.guid, inv.counts) || s in SnapshotSamples(c, inv.guid, inv.snapshotUsed)
            || s in DedupeSamples(c, inv.guid, inv.dedupe)
       <==> SingleSays(c, inv, s)
  {
    assert BaseLabels(c, inv.guid) == Of(c, inv.guid, []);
  }

  // ---------------------------------------------------------------- statistics

  // The last node of a device id.
  predicate NodeOfDevice(nodes: seq<Node>, i: nat, devId: int) {
    i < |nodes| && nodes[i].id == devId && forall j :: i < j < |nodes| ==> nodes[j].id != devId
  }

  // A reading of a known key: scaled by the key's divisor, if it has one, and labelled by the number of the node it is of.
  ghost predicate StatisticSays(table: map<string, StatKeySpec>, c: string, inv: Inventory, p: StatPoint, s: Sample) {
    p.key in table &&
    var spec := table[p.key];
    && s.metric == spec.metric
    && (if spec.divisor == 0.0 then s.value == p.value else s.value == p.value / spec.divisor)
    && match spec.scope
       case ClusterScope => s.labels == Of(c, inv.guid, [])
       case NodeScope =>
         exists i: nat :: NodeOfDevice(inv.nodes, i, p.devId) &&
           s.labels == Of(c, inv.guid, [Label(LNode, Itoa(inv.nodes[i].lnn))])
  }

  lemma {:induction false} DeviceHasLnn(nodes: seq<Node>, i: nat, devId: int)
    requires NodeOfDevice(nodes, i, devId)
    ensures devId in LnnByDevId(nodes) && LnnByDevId(nodes)[devId] == nodes[i].lnn
  {
    var k := |nodes| - 1;
    if i < k {
      assert nodes[k].id != devId;
      assert NodeOfDevice(nodes[..k], i, devId);
      DeviceHasLnn(nodes[..k], i, devId);
    }
  }

  lemma {:induction false} LnnIsOfDevice(nodes: seq<Node>, devId: int) returns (i: nat)
    requires devId in LnnByDevId(nodes)
    ensures NodeOfDevice(nodes, i, devId)
  {
    i := |nodes| - 1;
    if nodes[i].id != devId {
      var k := i;
      i := LnnIsOfDevice(nodes[..k], devId);
      assert forall j :: 0 <= j < k ==> nodes[..k][j] == nodes[j];
    }
  }

  lemma OneNodeOfDevice(nodes: seq<Node>, i: nat, j: nat, devId: int)
    requires NodeOfDevice(nodes, i, devId) && NodeOfDevice(nodes, j, devId)
    ensures i == j
  {
  }

  /** A reading of a node-scoped key carries the logical number of the node with its device id, and is dropped without one. */
  lemma StatisticAsWritten(table: map<string, StatKeySpec>, c: string, inv: Inventory, p: StatPoint, s: Sample)
    ensures s in StatRow(table, c, inv.guid, LnnByDevId(inv.nodes))(p) <==> StatisticSays(table, c, inv, p, s)
  {
    if p.devId in LnnByDevId(inv.nodes) {
      var i := LnnIsOfDevice(inv.nodes, p.devId);
      DeviceHasLnn(inv.nodes, i, p.devId);
      forall j: nat | NodeOfDevice(inv.nodes, j, p.devId) ensures j == i {
        OneNodeOfDevice(inv.nodes, i, j, p.devId);
      }
    } else {
      forall i: nat ensures !NodeOfDevice(inv.nodes, i, p.devId) {
        if NodeOfDevice(inv.nodes, i, p.devId) {
          DeviceHasLnn(inv.nodes, i, p.devId);
        }
      }
    }
    assert BaseLabels(c, inv.guid) == Of(c, inv.guid, []);
  }
}
