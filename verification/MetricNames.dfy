/** The exported names of metrics and labels, and that they tell metrics and labels apart. */
module MetricNames {
  import opened Metrics

  function LabelText(n: LabelName): string {
    match n
    case LCluster => "cluster"
    case LClusterId => "cluster_id"
    case LNode => "node"
    case LProduct => "product"
    case LSeries => "series"
    case LHwgen => "hwgen"
    case LQuotaId => "quota_id"
    case LQuotaPath => "quota_path"
    case LQuotaType => "quota_type"
    case LProtocol => "protocol"
    case LOp => "op"
    case LStage => "stage"
    case LState => "state"
    case LPolicy => "policy"
    case LSeverity => "severity"
    case LName => "name"
    case LStatus => "status"
    case LPool => "pool"
    case LType => "type"
    case LZone => "zone"
    case LUsername => "username"
    case LSystemName => "system_name"
    case LJobType => "job_type"
    case LBay => "bay"
    case LClass => "class"
    case LSensor => "sensor"
  }

  /** Labels of different kinds have different names. */
  lemma LabelTextIsInjective(a: LabelName, b: LabelName)
    requires LabelText(a) == LabelText(b)
    ensures a == b
  {
  }

  // ---------------------------------------------------------------- metric names, family by family

  function ClusterWideText(m: Metric): string
    requires IsClusterWide(m)
  {
    match m
    case NfsExports => "powerscale_nfs_exports"
    case SmbShares => "powerscale_smb_shares"
    case Snapshots => "powerscale_snapshots"
    case SnapshotUsed => "powerscale_snapshot_used_bytes"
    case DedupeLogicalSaved => "powerscale_dedupe_logical_saved_bytes"
    case DedupeDeduplicated => "powerscale_dedupe_deduplicated_bytes"
    case ClusterCpuSys => "powerscale_cluster_cpu_sys_percent"
    case ClusterCpuUser => "powerscale_cluster_cpu_user_percent"
    case ClusterCpuIdle => "powerscale_cluster_cpu_idle_percent"
    case ClusterTotalCapacity => "powerscale_cluster_total_capacity_bytes"
    case ClusterUsedCapacity => "powerscale_cluster_used_capacity_bytes"
    case ClusterAvailableCapacity => "powerscale_cluster_available_capacity_bytes"
    case ClusterFreeCapacity => "powerscale_cluster_free_capacity_bytes"
    case ClusterDiskOperations => "powerscale_cluster_disk_operations_per_second"
    case ClusterNetIn => "powerscale_cluster_net_in_bytes_per_second"
    case ClusterNetOut => "powerscale_cluster_net_out_bytes_per_second"
  }

  // The per-node metrics of the read caches.
  predicate IsNodeCache(m: Metric) {
    m.NodeCacheL1Hit? || m.NodeCacheL1Miss? || m.NodeCacheL2Hit? || m.NodeCacheL2Miss? ||
    m.NodeCacheL3Hit? || m.NodeCacheL3Miss?
  }

  function NodeCacheText(m: Metric): string
    requires IsNodeCache(m)
  {
    match m
    case NodeCacheL1Hit => "powerscale_node_cache_l1_read_hit_bytes_per_second"
    case NodeCacheL1Miss => "powerscale_node_cache_l1_read_miss_bytes_per_second"
    case NodeCacheL2Hit => "powerscale_node_cache_l2_read_hit_bytes_per_second"
    case NodeCacheL2Miss => "powerscale_node_cache_l2_read_miss_bytes_per_second"
    case NodeCacheL3Hit => "powerscale_node_cache_l3_read_hit_bytes_per_second"
    case NodeCacheL3Miss => "powerscale_node_cache_l3_read_miss_bytes_per_second"
  }

  function PerNodeText(m: Metric): string
    requires IsPerNode(m) && !IsNodeCache(m)
  {
    match m
    case NodeReadonly => "powerscale_node_readonly"
    case NodeSmartfail => "powerscale_node_smartfail"
    case NodePowerSupplies => "powerscale_node_power_supplies"
    case NodePowerSupplyFailures => "powerscale_node_power_supply_failures"
    case NodeCpuIdle => "powerscale_node_cpu_idle_percent"
    case NodeCpuSys => "powerscale_node_cpu_sys_percent"
    case NodeCpuUser => "powerscale_node_cpu_user_percent"
    case NodeMemoryUsed => "powerscale_node_memory_used_bytes"
    case NodeDiskOperations => "powerscale_node_disk_operations_per_second"
    case NodeUsedCapacity => "powerscale_node_used_capacity_bytes"
  }

  function PerQuotaText(m: Metric): string
    requires IsPerQuota(m)
  {
    match m
    case QuotaUsage => "powerscale_quota_usage_bytes"
    case QuotaApplicationUsage => "powerscale_quota_application_usage_bytes"
    case QuotaPhysicalUsage => "powerscale_quota_physical_usage_bytes"
    case QuotaReductionRatio => "powerscale_quota_reduction_ratio"
    case QuotaHardThreshold => "powerscale_quota_hard_threshold_bytes"
    case QuotaSoftThreshold => "powerscale_quota_soft_threshold_bytes"
    case QuotaAdvisoryThreshold => "powerscale_quota_advisory_threshold_bytes"
  }

  function PerProtocolText(m: Metric): string
    requires IsPerProtocol(m)
  {
    match m
    case ProtocolOperations => "powerscale_protocol_operations_per_second"
    case ProtocolLatency => "powerscale_protocol_latency_seconds"
  }

  function PerSensorText(m: Metric): string
    requires IsPerSensor(m)
  {
    match m
    case NodeTemperature => "powerscale_node_temperature_celsius"
    case NodeFanSpeed => "powerscale_node_fan_speed_rpm"
  }

  function PerPolicyText(m: Metric): string
    requires IsPerPolicy(m)
  {
    match m
    case SyncIqEnabled => "powerscale_synciq_policy_enabled"
    case SyncIqLastRunFailed => "powerscale_synciq_last_run_failed"
  }

  function PerPoolText(m: Metric): string
    requires IsPerPool(m)
  {
    match m
    case PoolTotal => "powerscale_storagepool_total_capacity_bytes"
    case PoolUsed => "powerscale_storagepool_used_capacity_bytes"
    case PoolAvailable => "powerscale_storagepool_available_capacity_bytes"
    case PoolSsdTotal => "powerscale_storagepool_ssd_total_capacity_bytes"
    case PoolSsdUsed => "powerscale_storagepool_ssd_used_capacity_bytes"
    case PoolSsdAvailable => "powerscale_storagepool_ssd_available_capacity_bytes"
    case PoolHddTotal => "powerscale_storagepool_hdd_total_capacity_bytes"
    case PoolHddUsed => "powerscale_storagepool_hdd_used_capacity_bytes"
    case PoolHddAvailable => "powerscale_storagepool_hdd_available_capacity_bytes"
  }

  function PerDriveText(m: Metric): string
    requires IsPerDrive(m)
  {
    match m
    case DriveOperations => "powerscale_drive_operations_per_second"
    case DriveBusy => "powerscale_drive_busy_percent"
  }

  function PerClientText(m: Metric): string
    requires IsPerClient(m)
  {
    match m
    case ClientOperations => "powerscale_client_operations_per_second"
    case ClientIn => "powerscale_client_in_bytes_per_second"
    case ClientOut => "powerscale_client_out_bytes_per_second"
  }

  function PerWorkloadText(m: Metric): string
    requires IsPerWorkload(m)
  {
    match m
    case WorkloadOperations => "powerscale_workload_operations_per_second"
    case WorkloadIn => "powerscale_workload_in_bytes_per_second"
    case WorkloadOut => "powerscale_workload_out_bytes_per_second"
    case WorkloadCpu => "powerscale_workload_cpu_seconds_per_second"
  }

  // The metrics that do not share their labels with another.
  function SingleText(m: Metric): string {
    if m.NodeHardwareInfo? then "powerscale_node_hardware_info"
    else if m.ProtocolLatencyStage? then "powerscale_protocol_latency_stage_seconds"
    else if m.NodeDrives? then "powerscale_node_drives"
    else if m.ActiveEvents? then "powerscale_active_events"
    else if m.LicenseExpiration? then "powerscale_license_expiration_timestamp_seconds"
    else "powerscale_license_active"
  }

  /** The name a metric is exported under. */
  function Text(m: Metric): string {
    if IsClusterWide(m) then ClusterWideText(m)
    else if IsNodeCache(m) then NodeCacheText(m)
    else if IsPerNode(m) then PerNodeText(m)
    else if IsPerQuota(m) then PerQuotaText(m)
    else if IsPerProtocol(m) then PerProtocolText(m)
    else if IsPerSensor(m) then PerSensorText(m)
    else if IsPerPolicy(m) then PerPolicyText(m)
    else if IsPerPool(m) then PerPoolText(m)
    else if IsPerDrive(m) then PerDriveText(m)
    else if IsPerClient(m) then PerClientText(m)
    else if IsPerWorkload(m) then PerWorkloadText(m)
    else SingleText(m)
  }

  // The metric of a name: its length and at most two of its characters tell.
  function Recognised(s: string): Metric {
    match |s|
    case 20 => Snapshots
    case 21 => SmbShares
    case 22 => if s[20] == 't' then NfsExports else NodeDrives
    case 24 => if s[23] == 'y' then NodeReadonly else ActiveEvents
    case 25 => if s[24] == 'l' then NodeSmartfail else LicenseActive
    case 28 => QuotaUsage
    case 29 => if s[28] == 'o' then NodeHardwareInfo else if s[28] == 'm' then NodeFanSpeed else DriveBusy
    case 30 => if s[27] == 't' then SnapshotUsed else NodePowerSupplies
    case 31 => NodeCpuSys
    case 32 =>
      if s[23] == 'e' then NodeCpuIdle else if s[23] == 'r' then NodeCpuUser
      else if s[23] == 'i' then QuotaReductionRatio else SyncIqEnabled
    case 33 => if s[32] == 's' then NodeMemoryUsed else SyncIqLastRunFailed
    case 34 => ClusterCpuSys
    case 35 =>
      if s[24] == 's' then ClusterCpuUser else if s[24] == 'd' then ClusterCpuIdle
      else if s[24] == 'a' then NodeUsedCapacity else if s[24] == 'n' then ProtocolLatency else NodeTemperature
    case 36 => DedupeDeduplicated
    case 37 =>
      if s[20] == 'g' then DedupeLogicalSaved else if s[20] == 'r' then NodePowerSupplyFailures
      else if s[20] == 's' then QuotaPhysicalUsage else if s[20] == 'd' then QuotaHardThreshold
      else if s[20] == 't' then QuotaSoftThreshold else ClientIn
    case 38 =>
      if s[22] == 'd' then ClusterUsedCapacity else if s[22] == 'e' then ClusterFreeCapacity
      else if s[22] == 't' then DriveOperations else ClientOut
    case 39 => if s[26] == 'a' then ClusterTotalCapacity else if s[26] == 'n' then ClientOperations else WorkloadIn
    case 40 => if s[39] == 's' then QuotaApplicationUsage else WorkloadOut
    case 41 =>
      if s[39] == 'e' then QuotaAdvisoryThreshold
      else if s[39] == 'n' then if s[18] == 'l' then ProtocolOperations else WorkloadOperations else ProtocolLatencyStage
    case 42 =>
      if s[29] == 'e' then ClusterNetIn else if s[29] == 'n' then NodeDiskOperations
      else if s[29] == 'a' then PoolUsed else WorkloadCpu
    case 43 => if s[27] == 'e' then ClusterAvailableCapacity else if s[27] == 'b' then ClusterNetOut else PoolTotal
    case 45 => ClusterDiskOperations
    case 46 => if s[24] == 's' then PoolSsdUsed else PoolHddUsed
    case 47 =>
      if s[24] == 'a' then LicenseExpiration else if s[24] == 'v' then PoolAvailable
      else if s[24] == 's' then PoolSsdTotal else PoolHddTotal
    case 50 => if s[23] == '1' then NodeCacheL1Hit else if s[23] == '2' then NodeCacheL2Hit else NodeCacheL3Hit
    case 51 =>
      if s[23] == '1' then NodeCacheL1Miss else if s[23] == '2' then NodeCacheL2Miss
      else if s[23] == '3' then NodeCacheL3Miss else if s[23] == 's' then PoolSsdAvailable else PoolHddAvailable
    case _ => NfsExports
  }

  lemma ClusterWideTextIsRecognised(m: Metric)
    requires IsClusterWide(m)
    ensures Recognised(ClusterWideText(m)) == m
  {
    var s := ClusterWideText(m);
    match m
    case NfsExports => assert |s| == 22 && s[20] == 't' && Recognised(s) == NfsExports;
    case SmbShares => assert |s| == 21 && Recognised(s) == SmbShares;
    case Snapshots => assert |s| == 20 && Recognised(s) == Snapshots;
    case SnapshotUsed => assert |s| == 30 && s[27] == 't' && Recognised(s) == SnapshotUsed;
    case DedupeLogicalSaved => assert |s| == 37 && s[20] == 'g' && Recognised(s) == DedupeLogicalSaved;
    case DedupeDeduplicated => assert |s| == 36 && Recognised(s) == DedupeDeduplicated;
    case ClusterCpuSys => assert |s| == 34 && Recognised(s) == ClusterCpuSys;
    case ClusterCpuUser => assert |s| == 35 && s[24] == 's' && Recognised(s) == ClusterCpuUser;
    case ClusterCpuIdle => assert |s| == 35 && s[24] == 'd' && Recognised(s) == ClusterCpuIdle;
    case ClusterTotalCapacity => assert |s| == 39 && s[26] == 'a' && Recognised(s) == ClusterTotalCapacity;
    case ClusterUsedCapacity => assert |s| == 38 && s[22] == 'd' && Recognised(s) == ClusterUsedCapacity;
    case ClusterAvailableCapacity => assert |s| == 43 && s[27] == 'e' && Recognised(s) == ClusterAvailableCapacity;
    case ClusterFreeCapacity => assert |s| == 38 && s[22] == 'e' && Recognised(s) == ClusterFreeCapacity;
    case ClusterDiskOperations => assert |s| == 45 && Recognised(s) == ClusterDiskOperations;
    case ClusterNetIn => assert |s| == 42 && s[29] == 'e' && Recognised(s) == ClusterNetIn;
    case ClusterNetOut => assert |s| == 43 && s[27] == 'b' && Recognised(s) == ClusterNetOut;
  }

  lemma NodeCacheTextIsRecognised(m: Metric)
    requires IsNodeCache(m)
    ensures Recognised(NodeCacheText(m)) == m
  {
    var s := NodeCacheText(m);
    match m
    case NodeCacheL1Hit => assert |s| == 50 && s[23] == '1' && Recognised(s) == NodeCacheL1Hit;
    case NodeCacheL1Miss => assert |s| == 51 && s[23] == '1' && Recognised(s) == NodeCacheL1Miss;
    case NodeCacheL2Hit => assert |s| == 50 && s[23] == '2' && Recognised(s) == NodeCacheL2Hit;
    case NodeCacheL2Miss => assert |s| == 51 && s[23] == '2' && Recognised(s) == NodeCacheL2Miss;
    case NodeCacheL3Hit => assert |s| == 50 && s[23] == '3' && Recognised(s) == NodeCacheL3Hit;
    case NodeCacheL3Miss => assert |s| == 51 && s[23] == '3' && Recognised(s) == NodeCacheL3Miss;
  }

  lemma PerNodeTextIsRecognised(m: Metric)
    requires IsPerNode(m) && !IsNodeCache(m)
    ensures Recognised(PerNodeText(m)) == m
  {
    var s := PerNodeText(m);
    match m
    case NodeReadonly => assert |s| == 24 && s[23] == 'y' && Recognised(s) == NodeReadonly;
    case NodeSmartfail => assert |s| == 25 && s[24] == 'l' && Recognised(s) == NodeSmartfail;
    case NodePowerSupplies => assert |s| == 30 && s[27] == 'i' && Recognised(s) == NodePowerSupplies;
    case NodePowerSupplyFailures => assert |s| == 37 && s[20] == 'r' && Recognised(s) == NodePowerSupplyFailures;
    case NodeCpuIdle => assert |s| == 32 && s[23] == 'e' && Recognised(s) == NodeCpuIdle;
    case NodeCpuSys => assert |s| == 31 && Recognised(s) == NodeCpuSys;
    case NodeCpuUser => assert |s| == 32 && s[23] == 'r' && Recognised(s) == NodeCpuUser;
    case NodeMemoryUsed => assert |s| == 33 && s[32] == 's' && Recognised(s) == NodeMemoryUsed;
    case NodeDiskOperations => assert |s| == 42 && s[29] == 'n' && Recognised(s) == NodeDiskOperations;
    case NodeUsedCapacity => assert |s| == 35 && s[24] == 'a' && Recognised(s) == NodeUsedCapacity;
  }

  lemma PerQuotaTextIsRecognised(m: Metric)
    requires IsPerQuota(m)
    ensures Recognised(PerQuotaText(m)) == m
  {
    match m
    case QuotaUsage => assert |PerQuotaText(m)| == 28 && Recognised(PerQuotaText(m)) == QuotaUsage;
    case QuotaApplicationUsage => assert |PerQuotaText(m)| == 40 && PerQuotaText(m)[39] == 's' && Recognised(PerQuotaText(m)) == QuotaApplicationUsage;
    case QuotaPhysicalUsage => assert |PerQuotaText(m)| == 37 && PerQuotaText(m)[20] == 's' && Recognised(PerQuotaText(m)) == QuotaPhysicalUsage;
    case QuotaReductionRatio => assert |PerQuotaText(m)| == 32 && PerQuotaText(m)[23] == 'i' && Recognised(PerQuotaText(m)) == QuotaReductionRatio;
    case QuotaHardThreshold => assert |PerQuotaText(m)| == 37 && PerQuotaText(m)[20] == 'd' && Recognised(PerQuotaText(m)) == QuotaHardThreshold;
    case QuotaSoftThreshold => assert |PerQuotaText(m)| == 37 && PerQuotaText(m)[20] == 't' && Recognised(PerQuotaText(m)) == QuotaSoftThreshold;
    case QuotaAdvisoryThreshold => assert |PerQuotaText(m)| == 41 && PerQuotaText(m)[39] == 'e' && Recognised(PerQuotaText(m)) == QuotaAdvisoryThreshold;
  }

  lemma PerProtocolTextIsRecognised(m: Metric)
    requires IsPerProtocol(m)
    ensures Recognised(PerProtocolText(m)) == m
  {
  }

  lemma PerSensorTextIsRecognised(m: Metric)
    requires IsPerSensor(m)
    ensures Recognised(PerSensorText(m)) == m
  {
  }

  lemma PerPolicyTextIsRecognised(m: Metric)
    requires IsPerPolicy(m)
    ensures Recognised(PerPolicyText(m)) == m
  {
  }

  lemma PerPoolTextIsRecognised(m: Metric)
    requires IsPerPool(m)
    ensures Recognised(PerPoolText(m)) == m
  {
    var s := PerPoolText(m);
    match m
    case PoolTotal => assert |s| == 43 && s[27] == 'l' && Recognised(s) == PoolTotal;
    case PoolUsed => assert |s| == 42 && s[29] == 'a' && Recognised(s) == PoolUsed;
    case PoolAvailable => assert |s| == 47 && s[24] == 'v' && Recognised(s) == PoolAvailable;
    case PoolSsdTotal => assert |s| == 47 && s[24] == 's' && Recognised(s) == PoolSsdTotal;
    case PoolSsdUsed => assert |s| == 46 && s[24] == 's' && Recognised(s) == PoolSsdUsed;
    case PoolSsdAvailable => assert |s| == 51 && s[23] == 's' && Recognised(s) == PoolSsdAvailable;
    case PoolHddTotal => assert |s| == 47 && s[24] == 'd' && Recognised(s) == PoolHddTotal;
    case PoolHddUsed => assert |s| == 46 && s[24] == 'd' && Recognised(s) == PoolHddUsed;
    case PoolHddAvailable => assert |s| == 51 && s[23] == 'h' && Recognised(s) == PoolHddAvailable;
  }

  lemma PerDriveTextIsRecognised(m: Metric)
    requires IsPerDrive(m)
    ensures Recognised(PerDriveText(m)) == m
  {
  }

  lemma PerClientTextIsRecognised(m: Metric)
    requires IsPerClient(m)
    ensures Recognised(PerClientText(m)) == m
  {
    match m
    case ClientOperations => assert |PerClientText(m)| == 39 && PerClientText(m)[26] == 'n' && Recognised(PerClientText(m)) == ClientOperations;
    case ClientIn => assert |PerClientText(m)| == 37 && PerClientText(m)[20] == '_' && Recognised(PerClientText(m)) == ClientIn;
    case ClientOut => assert |PerClientText(m)| == 38 && PerClientText(m)[22] == 'b' && Recognised(PerClientText(m)) == ClientOut;
  }

  lemma PerWorkloadTextIsRecognised(m: Metric)
    requires IsPerWorkload(m)
    ensures Recognised(PerWorkloadText(m)) == m
  {
    var s := PerWorkloadText(m);
    match m
    case WorkloadOperations => assert |s| == 41 && s[39] == 'n' && Recognised(s) == WorkloadOperations;
    case WorkloadIn => assert |s| == 39 && s[26] == 'e' && Recognised(s) == WorkloadIn;
    case WorkloadOut => assert |s| == 40 && s[39] == 'd' && Recognised(s) == WorkloadOut;
    case WorkloadCpu => assert |s| == 42 && s[29] == 'd' && Recognised(s) == WorkloadCpu;
  }

  lemma TextIsRecognised(m: Metric)
    ensures Recognised(Text(m)) == m
  {
    if IsClusterWide(m) {
      ClusterWideTextIsRecognised(m);
    } else if IsNodeCache(m) {
      NodeCacheTextIsRecognised(m);
    } else if IsPerNode(m) {
      PerNodeTextIsRecognised(m);
    } else if IsPerQuota(m) {
      PerQuotaTextIsRecognised(m);
    } else if IsPerProtocol(m) {
      PerProtocolTextIsRecognised(m);
    } else if IsPerSensor(m) {
      PerSensorTextIsRecognised(m);
    } else if IsPerPolicy(m) {
      PerPolicyTextIsRecognised(m);
    } else if IsPerPool(m) {
      PerPoolTextIsRecognised(m);
    } else if IsPerDrive(m) {
      PerDriveTextIsRecognised(m);
    } else if IsPerClient(m) {
      PerClientTextIsRecognised(m);
    } else if IsPerWorkload(m) {
      PerWorkloadTextIsRecognised(m);
    }
  }

  /** Different metrics have different names. */
  lemma TextIsInjective(a: Metric, b: Metric)
    requires Text(a) == Text(b)
    ensures a == b
  {
    TextIsRecognised(a);
    TextIsRecognised(b);
  }
}
