/** Metrics, their names, and the labels each carries (internal/powerscale/metrics.go, statkeys.go). */
module Metrics {
  import opened Strings
  import opened Paths

  // One constructor per label name; module MetricNames gives the name.
  datatype LabelName =
    | LCluster | LClusterId | LNode | LProduct | LSeries | LHwgen | LQuotaId | LQuotaPath | LQuotaType
    | LProtocol | LOp | LStage | LState | LPolicy | LSeverity | LName | LStatus | LPool | LType | LZone
    | LUsername | LSystemName | LJobType | LBay | LClass | LSensor

  datatype Label = Label(name: LabelName, value: string)

  // A sample's value is a 64-bit float in the program; rounding is not modelled.
  datatype Sample = Sample(metric: Metric, labels: seq<Label>, value: real)

  // One constructor per metric name; module MetricNames gives the name. The metrics of one line share their labels.
  datatype Metric =
    | NfsExports | SmbShares | Snapshots | SnapshotUsed | DedupeLogicalSaved | DedupeDeduplicated
      | ClusterCpuSys | ClusterCpuUser | ClusterCpuIdle | ClusterTotalCapacity | ClusterUsedCapacity
      | ClusterAvailableCapacity | ClusterFreeCapacity | ClusterDiskOperations | ClusterNetIn | ClusterNetOut
    | NodeReadonly | NodeSmartfail | NodePowerSupplies | NodePowerSupplyFailures | NodeCpuIdle | NodeCpuSys
      | NodeCpuUser | NodeMemoryUsed | NodeDiskOperations | NodeUsedCapacity | NodeCacheL1Hit | NodeCacheL1Miss
      | NodeCacheL2Hit | NodeCacheL2Miss | NodeCacheL3Hit | NodeCacheL3Miss
    | NodeHardwareInfo
    | QuotaUsage | QuotaApplicationUsage | QuotaPhysicalUsage | QuotaReductionRatio | QuotaHardThreshold
      | QuotaSoftThreshold | QuotaAdvisoryThreshold
    | ProtocolOperations | ProtocolLatency
    | ProtocolLatencyStage
    | NodeDrives
    | NodeTemperature | NodeFanSpeed
    | SyncIqEnabled | SyncIqLastRunFailed
    | ActiveEvents
    | LicenseExpiration
    | LicenseActive
    | PoolTotal | PoolUsed | PoolAvailable | PoolSsdTotal | PoolSsdUsed | PoolSsdAvailable | PoolHddTotal
      | PoolHddUsed | PoolHddAvailable
    | DriveOperations | DriveBusy
    | ClientOperations | ClientIn | ClientOut
    | WorkloadOperations | WorkloadIn | WorkloadOut | WorkloadCpu

  // What the samples of a metric are broken down by.
  datatype Family =
    | ClusterWide | PerNode | PerHardware | PerQuota | PerProtocol | PerStage | PerDriveState | PerSensor
    | PerPolicy | PerSeverity | PerLicense | PerLicenseStatus | PerPool | PerDrive | PerClient | PerWorkload

  predicate IsClusterWide(m: Metric) {
    m.NfsExports? || m.SmbShares? || m.Snapshots? || m.SnapshotUsed? || m.DedupeLogicalSaved? ||
    m.DedupeDeduplicated? || m.ClusterCpuSys? || m.ClusterCpuUser? || m.ClusterCpuIdle? ||
    m.ClusterTotalCapacity? || m.ClusterUsedCapacity? || m.ClusterAvailableCapacity? || m.ClusterFreeCapacity? ||
    m.ClusterDiskOperations? || m.ClusterNetIn? || m.ClusterNetOut?
  }

  predicate IsPerNode(m: Metric) {
    m.NodeReadonly? || m.NodeSmartfail? || m.NodePowerSupplies? || m.NodePowerSupplyFailures? || m.NodeCpuIdle? ||
    m.NodeCpuSys? || m.NodeCpuUser? || m.NodeMemoryUsed? || m.NodeDiskOperations? || m.NodeUsedCapacity? ||
    m.NodeCacheL1Hit? || m.NodeCacheL1Miss? || m.NodeCacheL2Hit? || m.NodeCacheL2Miss? || m.NodeCacheL3Hit? ||
    m.NodeCacheL3Miss?
  }

  predicate IsPerQuota(m: Metric) {
    m.QuotaUsage? || m.QuotaApplicationUsage? || m.QuotaPhysicalUsage? || m.QuotaReductionRatio? ||
    m.QuotaHardThreshold? || m.QuotaSoftThreshold? || m.QuotaAdvisoryThreshold?
  }

  predicate IsPerProtocol(m: Metric) {
    m.ProtocolOperations? || m.ProtocolLatency?
  }

  predicate IsPerSensor(m: Metric) {
    m.NodeTemperature? || m.NodeFanSpeed?
  }

  predicate IsPerPolicy(m: Metric) {
    m.SyncIqEnabled? || m.SyncIqLastRunFailed?
  }

  predicate IsPerPool(m: Metric) {
    m.PoolTotal? || m.PoolUsed? || m.PoolAvailable? || m.PoolSsdTotal? || m.PoolSsdUsed? || m.PoolSsdAvailable? ||
    m.PoolHddTotal? || m.PoolHddUsed? || m.PoolHddAvailable?
  }

  predicate IsPerDrive(m: Metric) {
    m.DriveOperations? || m.DriveBusy?
  }

  predicate IsPerClient(m: Metric) {
    m.ClientOperations? || m.ClientIn? || m.ClientOut?
  }

  predicate IsPerWorkload(m: Metric) {
    m.WorkloadOperations? || m.WorkloadIn? || m.WorkloadOut? || m.WorkloadCpu?
  }

  function FamilyOf(m: Metric): Family {
    if IsClusterWide(m) then ClusterWide
    else if IsPerNode(m) then PerNode
    else if IsPerQuota(m) then PerQuota
    else if IsPerProtocol(m) then PerProtocol
    else if IsPerSensor(m) then PerSensor
    else if IsPerPolicy(m) then PerPolicy
    else if IsPerPool(m) then PerPool
    else if IsPerDrive(m) then PerDrive
    else if IsPerClient(m) then PerClient
    else if IsPerWorkload(m) then PerWorkload
    else if m.NodeHardwareInfo? then PerHardware
    else if m.ProtocolLatencyStage? then PerStage
    else if m.NodeDrives? then PerDriveState
    else if m.ActiveEvents? then PerSeverity
    else if m.LicenseExpiration? then PerLicense
    else PerLicenseStatus
  }

  // The label names after the two that identify the cluster.
  function OwnLabelNames(f: Family): seq<LabelName> {
    match f
    case ClusterWide => []
    case PerNode => [LNode]
    case PerHardware => [LNode, LProduct, LSeries, LHwgen]
    case PerQuota => [LQuotaId, LQuotaPath, LQuotaType]
    case PerProtocol => [LNode, LProtocol, LOp]
    case PerStage => [LNode, LProtocol, LOp, LStage]
    case PerDriveState => [LNode, LState]
    case PerSensor => [LNode, LSensor]
    case PerPolicy => [LPolicy]
    case PerSeverity => [LSeverity]
    case PerLicense => [LName]
    case PerLicenseStatus => [LName, LStatus]
    case PerPool => [LPool, LType]
    case PerDrive => [LNode, LBay, LType]
    case PerClient => [LNode, LProtocol, LClass]
    case PerWorkload => [LNode, LZone, LProtocol, LUsername, LSystemName, LJobType]
  }

  predicate HasNode(f: Family) {
    OwnLabelNames(f) != [] && OwnLabelNames(f)[0] == LNode
  }

  // How many of a family's own labels take any text a cluster reports: all but the node number and the stage.
  function FreeTexts(f: Family): nat {
    |OwnLabelNames(f)| - (if HasNode(f) then 1 else 0) - (if f == PerStage then 1 else 0)
  }

  /** The label names every sample of a metric carries, in order. */
  function LabelNames(m: Metric): seq<LabelName> {
    [LCluster, LClusterId] + OwnLabelNames(FamilyOf(m))
  }

  lemma LabelNamesOfFamilyAreDistinct(f: Family)
    ensures NoDuplicates([LCluster, LClusterId] + OwnLabelNames(f))
  {
  }

  lemma LabelNamesAreDistinct(m: Metric)
    ensures NoDuplicates(LabelNames(m))
  {
    LabelNamesOfFamilyAreDistinct(FamilyOf(m));
  }

  function Names(labels: seq<Label>): seq<LabelName> {
    seq(|labels|, i requires 0 <= i < |labels| => labels[i].name)
  }

  function Values(labels: seq<Label>): seq<string> {
    seq(|labels|, i requires 0 <= i < |labels| => labels[i].value)
  }

  // The labels of a family, in order, led by the identity of the cluster.
  predicate LabelledAs(labels: seq<Label>, f: Family, cluster: string, id: string) {
    && Names(labels) == [LCluster, LClusterId] + OwnLabelNames(f)
    && labels[0].value == cluster && labels[1].value == id
  }

  // ---------------------------------------------------------------- label builders

  function BaseLabels(cluster: string, id: string): (r: seq<Label>)
    ensures LabelledAs(r, ClusterWide, cluster, id)
    ensures Values(r) == [cluster, id]
    ensures NoNul(cluster) && NoNul(id) ==> NulFree(Values(r))
  {
    [Label(LCluster, cluster), Label(LClusterId, id)]
  }

  function NodeLabels(cluster: string, id: string, node: string): (r: seq<Label>)
    ensures LabelledAs(r, PerNode, cluster, id)
    ensures Values(r) == [cluster, id, node]
    ensures NoNul(cluster) && NoNul(id) && NoNul(node) ==> NulFree(Values(r))
  {
    BaseLabels(cluster, id) + [Label(LNode, node)]
  }

  function HardwareInfoLabels(cluster: string, id: string, node: string, product: string, series: string, hwgen: string)
    : (r: seq<Label>)
    ensures LabelledAs(r, PerHardware, cluster, id)
    ensures Values(r) == [cluster, id, node, product, series, hwgen]
    ensures NoNul(cluster) && NoNul(id) && NoNul(node) && NoNul(product) && NoNul(series) && NoNul(hwgen) ==> NulFree(Values(r))
  {
    BaseLabels(cluster, id) + [Label(LNode, node), Label(LProduct, product), Label(LSeries, series), Label(LHwgen, hwgen)]
  }

  function QuotaLabels(cluster: string, id: string, quotaId: string, path: string, quotaType: string): (r: seq<Label>)
    ensures LabelledAs(r, PerQuota, cluster, id)
    ensures Values(r) == [cluster, id, quotaId, path, quotaType]
    ensures NoNul(cluster) && NoNul(id) && NoNul(quotaId) && NoNul(path) && NoNul(quotaType) ==> NulFree(Values(r))
  {
    BaseLabels(cluster, id) + [Label(LQuotaId, quotaId), Label(LQuotaPath, path), Label(LQuotaType, quotaType)]
  }

  function ProtocolLabels(cluster: string, id: string, node: string, proto: string, op: string): (r: seq<Label>)
    ensures LabelledAs(r, PerProtocol, cluster, id)
    ensures Values(r) == [cluster, id, node, proto, op]
    ensures NoNul(cluster) && NoNul(id) && NoNul(node) && NoNul(proto) && NoNul(op) ==> NulFree(Values(r))
  {
    BaseLabels(cluster, id) + [Label(LNode, node), Label(LProtocol, proto), Label(LOp, op)]
  }

  function DriveLabels(cluster: string, id: string, node: string, state: string): (r: seq<Label>)
    ensures LabelledAs(r, PerDriveState, cluster, id)
    ensures Values(r) == [cluster, id, node, state]
    ensures NoNul(cluster) && NoNul(id) && NoNul(node) && NoNul(state) ==> NulFree(Values(r))
  {
    BaseLabels(cluster, id) + [Label(LNode, node), Label(LState, state)]
  }

  function PolicyLabels(cluster: string, id: string, policy: string): (r: seq<Label>)
    ensures LabelledAs(r, PerPolicy, cluster, id)
    ensures Values(r) == [cluster, id, policy]
    ensures NoNul(cluster) && NoNul(id) && NoNul(policy) ==> NulFree(Values(r))
  {
    BaseLabels(cluster, id) + [Label(LPolicy, policy)]
  }

  function SeverityLabels(cluster: string, id: string, severity: string): (r: seq<Label>)
    ensures LabelledAs(r, PerSeverity, cluster, id)
    ensures Values(r) == [cluster, id, severity]
    ensures NoNul(cluster) && NoNul(id) && NoNul(severity) ==> NulFree(Values(r))
  {
    BaseLabels(cluster, id) + [Label(LSeverity, severity)]
  }

  function LicenseLabels(cluster: string, id: string, name: string): (r: seq<Label>)
    ensures LabelledAs(r, PerLicense, cluster, id)
    ensures Values(r) == [cluster, id, name]
    ensures NoNul(cluster) && NoNul(id) && NoNul(name) ==> NulFree(Values(r))
  {
    BaseLabels(cluster, id) + [Label(LName, name)]
  }

  function LicenseActiveLabels(cluster: string, id: string, name: string, status: string): (r: seq<Label>)
    ensures LabelledAs(r, PerLicenseStatus, cluster, id)
    ensures Values(r) == [cluster, id, name, status]
    ensures NoNul(cluster) && NoNul(id) && NoNul(name) && NoNul(status) ==> NulFree(Values(r))
  {
    BaseLabels(cluster, id) + [Label(LName, name), Label(LStatus, status)]
  }

  function StoragePoolLabels(cluster: string, id: string, pool: string, poolType: string): (r: seq<Label>)
    ensures LabelledAs(r, PerPool, cluster, id)
    ensures Values(r) == [cluster, id, pool, poolType]
    ensures NoNul(cluster) && NoNul(id) && NoNul(pool) && NoNul(poolType) ==> NulFree(Values(r))
  {
    BaseLabels(cluster, id) + [Label(LPool, pool), Label(LType, poolType)]
  }

  function WorkloadLabels(cluster: string, id: string, node: string, zone: string, protocol: string, username: string,
                          systemName: string, jobType: string)
    : (r: seq<Label>)
    ensures LabelledAs(r, PerWorkload, cluster, id)
    ensures Values(r) == [cluster, id, node, zone, protocol, username, systemName, jobType]
    ensures NulFree([cluster, id, node, zone, protocol, username, systemName, jobType]) ==> NulFree(Values(r))
  {
    BaseLabels(cluster, id) +
    [ Label(LNode, node), Label(LZone, zone), Label(LProtocol, protocol),
      Label(LUsername, username), Label(LSystemName, systemName), Label(LJobType, jobType) ]
  }

  function DriveStatLabels(cluster: string, id: string, node: string, bay: string, driveType: string): (r: seq<Label>)
    ensures LabelledAs(r, PerDrive, cluster, id)
    ensures Values(r) == [cluster, id, node, bay, driveType]
    ensures NoNul(cluster) && NoNul(id) && NoNul(node) && NoNul(bay) && NoNul(driveType) ==> NulFree(Values(r))
  {
    BaseLabels(cluster, id) + [Label(LNode, node), Label(LBay, bay), Label(LType, driveType)]
  }

  function ClientLabels(cluster: string, id: string, node: string, proto: string, protocolClass: string): (r: seq<Label>)
    ensures LabelledAs(r, PerClient, cluster, id)
    ensures Values(r) == [cluster, id, node, proto, protocolClass]
    ensures NoNul(cluster) && NoNul(id) && NoNul(node) && NoNul(proto) && NoNul(protocolClass) ==> NulFree(Values(r))
  {
    BaseLabels(cluster, id) + [Label(LNode, node), Label(LProtocol, proto), Label(LClass, protocolClass)]
  }

  function SensorLabels(cluster: string, id: string, node: string, sensor: string): (r: seq<Label>)
    ensures LabelledAs(r, PerSensor, cluster, id)
    ensures Values(r) == [cluster, id, node, sensor]
    ensures NoNul(cluster) && NoNul(id) && NoNul(node) && NoNul(sensor) ==> NulFree(Values(r))
  {
    BaseLabels(cluster, id) + [Label(LNode, node), Label(LSensor, sensor)]
  }

  /** The label schema: exactly the metric's label names, starting with the identity of its own cluster. */
  predicate Conforms(s: Sample, cluster: string, id: string) {
    LabelledAs(s.labels, FamilyOf(s.metric), cluster, id)
  }

  predicate AllConform(samples: seq<Sample>, cluster: string, id: string) {
    forall i :: 0 <= i < |samples| ==> Conforms(samples[i], cluster, id)
  }

  // The samples of one metric, in order.
  function OfMetric(samples: seq<Sample>, m: Metric): seq<Sample> {
    if samples == [] then []
    else OfMetric(samples[..|samples| - 1], m) + if samples[|samples| - 1].metric == m then [samples[|samples| - 1]] else []
  }

  lemma {:induction false} OfMetricConcat(a: seq<Sample>, b: seq<Sample>, m: Metric)
    ensures OfMetric(a + b, m) == OfMetric(a, m) + OfMetric(b, m)
  {
    if b == [] {
      assert a + b == a;
    } else {
      assert (a + b)[..|a + b| - 1] == a + b[..|b| - 1];
      OfMetricConcat(a, b[..|b| - 1], m);
    }
  }

  lemma {:induction false} OfMetricUniform(samples: seq<Sample>, m: Metric, all: bool)
    requires forall i :: 0 <= i < |samples| ==> (samples[i].metric == m <==> all)
    ensures OfMetric(samples, m) == if all then samples else []
  {
    if samples != [] {
      OfMetricUniform(samples[..|samples| - 1], m, all);
    }
  }

  // ---------------------------------------------------------------- statistics keys

  datatype Scope = ClusterScope | NodeScope

  // A divisor of 0 stands for an omitted one.
  datatype StatKeySpec = StatKeySpec(key: string, metric: Metric, scope: Scope, divisor: real)

  function Scale(spec: StatKeySpec, v: real): (r: real)
    ensures spec.divisor != 0.0 ==> r * spec.divisor == v
    ensures spec.divisor == 0.0 ==> r == v
  {
    if spec.divisor == 0.0 then v else v / spec.divisor
  }

  // Node-scoped metrics carry a node label, cluster-scoped ones only the cluster's identity.
  predicate WellScoped(spec: StatKeySpec) {
    FamilyOf(spec.metric) == if spec.scope == NodeScope then PerNode else ClusterWide
  }
}
