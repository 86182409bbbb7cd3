/** The exported names, written out: of metrics and labels (internal/powerscale/derivations.go, metrics.go), and of the
statistics keys with their scopes and divisors (internal/powerscale/statisticsKeys.json). */
module NamesAsWritten {
  import opened Metrics
  import opened MetricNames
  import opened StatKeys

  lemma LabelNamesAsWritten()
    ensures LabelText(LCluster) == "cluster" && LabelText(LClusterId) == "cluster_id" && LabelText(LNode) == "node"
    ensures LabelText(LProduct) == "product" && LabelText(LSeries) == "series" && LabelText(LHwgen) == "hwgen"
    ensures LabelText(LQuotaId) == "quota_id" && LabelText(LQuotaPath) == "quota_path" && LabelText(LQuotaType) == "quota_type"
    ensures LabelText(LProtocol) == "protocol" && LabelText(LOp) == "op" && LabelText(LStage) == "stage"
    ensures LabelText(LState) == "state" && LabelText(LPolicy) == "policy" && LabelText(LSeverity) == "severity"
    ensures LabelText(LName) == "name" && LabelText(LStatus) == "status" && LabelText(LPool) == "pool"
    ensures LabelText(LType) == "type" && LabelText(LZone) == "zone" && LabelText(LUsername) == "username"
    ensures LabelText(LSystemName) == "system_name" && LabelText(LJobType) == "job_type" && LabelText(LBay) == "bay"
    ensures LabelText(LClass) == "class" && LabelText(LSensor) == "sensor"
  {
  }

  // ---------------------------------------------------------------- metrics

  predicate IsSingle(m: Metric) {
    m.NodeHardwareInfo? || m.ProtocolLatencyStage? || m.NodeDrives? || m.ActiveEvents? || m.LicenseExpiration? || m.LicenseActive?
  }

  lemma ClusterCountNames(m: Metric)
    requires IsClusterWide(m)
    ensures m.NfsExports? ==> Text(m) == "powerscale_nfs_exports"
    ensures m.SmbShares? ==> Text(m) == "powerscale_smb_shares"
    ensures m.Snapshots? ==> Text(m) == "powerscale_snapshots"
    ensures m.SnapshotUsed? ==> Text(m) == "powerscale_snapshot_used_bytes"
    ensures m.DedupeLogicalSaved? ==> Text(m) == "powerscale_dedupe_logical_saved_bytes"
    ensures m.DedupeDeduplicated? ==> Text(m) == "powerscale_dedupe_deduplicated_bytes"
  {
    assert Text(m) == ClusterWideText(m);
  }

  lemma ClusterCpuNames(m: Metric)
    requires IsClusterWide(m)
    ensures m.ClusterCpuSys? ==> Text(m) == "powerscale_cluster_cpu_sys_percent"
    ensures m.ClusterCpuUser? ==> Text(m) == "powerscale_cluster_cpu_user_percent"
    ensures m.ClusterCpuIdle? ==> Text(m) == "powerscale_cluster_cpu_idle_percent"
  {
    assert Text(m) == ClusterWideText(m);
  }

  lemma ClusterTrafficNames(m: Metric)
    requires IsClusterWide(m)
    ensures m.ClusterDiskOperations? ==> Text(m) == "powerscale_cluster_disk_operations_per_second"
    ensures m.ClusterNetIn? ==> Text(m) == "powerscale_cluster_net_in_bytes_per_second"
    ensures m.ClusterNetOut? ==> Text(m) == "powerscale_cluster_net_out_bytes_per_second"
  {
    assert Text(m) == ClusterWideText(m);
  }

  lemma ClusterCapacityNames(m: Metric)
    requires IsClusterWide(m)
    ensures m.ClusterTotalCapacity? ==> Text(m) == "powerscale_cluster_total_capacity_bytes"
    ensures m.ClusterUsedCapacity? ==> Text(m) == "powerscale_cluster_used_capacity_bytes"
    ensures m.ClusterAvailableCapacity? ==> Text(m) == "powerscale_cluster_available_capacity_bytes"
    ensures m.ClusterFreeCapacity? ==> Text(m) == "powerscale_cluster_free_capacity_bytes"
  {
    assert Text(m) == ClusterWideText(m);
  }

  lemma NodeStateNames(m: Metric)
    requires IsPerNode(m) && !IsNodeCache(m)
    ensures m.NodeReadonly? ==> Text(m) == "powerscale_node_readonly"
    ensures m.NodeSmartfail? ==> Text(m) == "powerscale_node_smartfail"
    ensures m.NodePowerSupplies? ==> Text(m) == "powerscale_node_power_supplies"
    ensures m.NodePowerSupplyFailures? ==> Text(m) == "powerscale_node_power_supply_failures"
  {
    assert !IsClusterWide(m);
    assert Text(m) == PerNodeText(m);
  }

  lemma NodeLoadNames(m: Metric)
    requires IsPerNode(m) && !IsNodeCache(m)
    ensures m.NodeCpuIdle? ==> Text(m) == "powerscale_node_cpu_idle_percent"
    ensures m.NodeCpuSys? ==> Text(m) == "powerscale_node_cpu_sys_percent"
    ensures m.NodeCpuUser? ==> Text(m) == "powerscale_node_cpu_user_percent"
    ensures m.NodeMemoryUsed? ==> Text(m) == "powerscale_node_memory_used_bytes"
    ensures m.NodeDiskOperations? ==> Text(m) == "powerscale_node_disk_operations_per_second"
    ensures m.NodeUsedCapacity? ==> Text(m) == "powerscale_node_used_capacity_bytes"
  {
    assert !IsClusterWide(m);
    assert Text(m) == PerNodeText(m);
  }

  lemma NodeCacheNames(m: Metric)
    requires IsNodeCache(m)
    ensures m.NodeCacheL1Hit? ==> Text(m) == "powerscale_node_cache_l1_read_hit_bytes_per_second"
    ensures m.NodeCacheL1Miss? ==> Text(m) == "powerscale_node_cache_l1_read_miss_bytes_per_second"
    ensures m.NodeCacheL2Hit? ==> Text(m) == "powerscale_node_cache_l2_read_hit_bytes_per_second"
    ensures m.NodeCacheL2Miss? ==> Text(m) == "powerscale_node_cache_l2_read_miss_bytes_per_second"
    ensures m.NodeCacheL3Hit? ==> Text(m) == "powerscale_node_cache_l3_read_hit_bytes_per_second"
    ensures m.NodeCacheL3Miss? ==> Text(m) == "powerscale_node_cache_l3_read_miss_bytes_per_second"
  {
    assert !IsClusterWide(m);
    assert Text(m) == NodeCacheText(m);
  }

  lemma QuotaNames(m: Metric)
    requires IsPerQuota(m)
    ensures m.QuotaUsage? ==> Text(m) == "powerscale_quota_usage_bytes"
    ensures m.QuotaApplicationUsage? ==> Text(m) == "powerscale_quota_application_usage_bytes"
    ensures m.QuotaPhysicalUsage? ==> Text(m) == "powerscale_quota_physical_usage_bytes"
    ensures m.QuotaReductionRatio? ==> Text(m) == "powerscale_quota_reduction_ratio"
    ensures m.QuotaHardThreshold? ==> Text(m) == "powerscale_quota_hard_threshold_bytes"
    ensures m.QuotaSoftThreshold? ==> Text(m) == "powerscale_quota_soft_threshold_bytes"
    ensures m.QuotaAdvisoryThreshold? ==> Text(m) == "powerscale_quota_advisory_threshold_bytes"
  {
    assert !IsClusterWide(m) && !IsNodeCache(m) && !IsPerNode(m);
    assert Text(m) == PerQuotaText(m);
  }

  lemma ProtocolNames(m: Metric)
    requires IsPerProtocol(m)
    ensures m.ProtocolOperations? ==> Text(m) == "powerscale_protocol_operations_per_second"
    ensures m.ProtocolLatency? ==> Text(m) == "powerscale_protocol_latency_seconds"
  {
    assert !IsClusterWide(m) && !IsNodeCache(m) && !IsPerNode(m) && !IsPerQuota(m);
    assert Text(m) == PerProtocolText(m);
  }

  lemma SensorNames(m: Metric)
    requires IsPerSensor(m)
    ensures m.NodeTemperature? ==> Text(m) == "powerscale_node_temperature_celsius"
    ensures m.NodeFanSpeed? ==> Text(m) == "powerscale_node_fan_speed_rpm"
  {
    assert !IsClusterWide(m) && !IsNodeCache(m) && !IsPerNode(m) && !IsPerQuota(m) && !IsPerProtocol(m);
    assert Text(m) == PerSensorText(m);
  }

  lemma PolicyNames(m: Metric)
    requires IsPerPolicy(m)
    ensures m.SyncIqEnabled? ==> Text(m) == "powerscale_synciq_policy_enabled"
    ensures m.SyncIqLastRunFailed? ==> Text(m) == "powerscale_synciq_last_run_failed"
  {
    assert !IsClusterWide(m) && !IsNodeCache(m) && !IsPerNode(m) && !IsPerQuota(m) && !IsPerProtocol(m) &&
           !IsPerSensor(m);
    assert Text(m) == PerPolicyText(m);
  }

  lemma PoolFamily(m: Metric)
    requires IsPerPool(m)
    ensures Text(m) == PerPoolText(m)
  {
    assert !IsClusterWide(m) && !IsNodeCache(m) && !IsPerNode(m) && !IsPerQuota(m) && !IsPerProtocol(m) &&
           !IsPerSensor(m) && !IsPerPolicy(m);
  }

  lemma PoolNames(m: Metric)
    requires IsPerPool(m)
    ensures m.PoolTotal? ==> Text(m) == "powerscale_storagepool_total_capacity_bytes"
    ensures m.PoolUsed? ==> Text(m) == "powerscale_storagepool_used_capacity_bytes"
    ensures m.PoolAvailable? ==> Text(m) == "powerscale_storagepool_available_capacity_bytes"
  {
    PoolFamily(m);
  }

  lemma PoolSsdNames(m: Metric)
    requires IsPerPool(m)
    ensures m.PoolSsdTotal? ==> Text(m) == "powerscale_storagepool_ssd_total_capacity_bytes"
    ensures m.PoolSsdUsed? ==> Text(m) == "powerscale_storagepool_ssd_used_capacity_bytes"
    ensures m.PoolSsdAvailable? ==> Text(m) == "powerscale_storagepool_ssd_available_capacity_bytes"
  {
    PoolFamily(m);
  }

  lemma PoolHddNames(m: Metric)
    requires IsPerPool(m)
    ensures m.PoolHddTotal? ==> Text(m) == "powerscale_storagepool_hdd_total_capacity_bytes"
    ensures m.PoolHddUsed? ==> Text(m) == "powerscale_storagepool_hdd_used_capacity_bytes"
    ensures m.PoolHddAvailable? ==> Text(m) == "powerscale_storagepool_hdd_available_capacity_bytes"
  {
    PoolFamily(m);
  }

  lemma DriveNames(m: Metric)
    requires IsPerDrive(m)
    ensures m.DriveOperations? ==> Text(m) == "powerscale_drive_operations_per_second"
    ensures m.DriveBusy? ==> Text(m) == "powerscale_drive_busy_percent"
  {
    assert !IsClusterWide(m) && !IsNodeCache(m) && !IsPerNode(m) && !IsPerQuota(m) && !IsPerProtocol(m) &&
           !IsPerSensor(m) && !IsPerPolicy(m) && !IsPerPool(m);
    assert Text(m) == PerDriveText(m);
  }

  lemma ClientNames(m: Metric)
    requires IsPerClient(m)
    ensures m.ClientOperations? ==> Text(m) == "powerscale_client_operations_per_second"
    ensures m.ClientIn? ==> Text(m) == "powerscale_client_in_bytes_per_second"
    ensures m.ClientOut? ==> Text(m) == "powerscale_client_out_bytes_per_second"
  {
    assert !IsClusterWide(m) && !IsNodeCache(m) && !IsPerNode(m) && !IsPerQuota(m) && !IsPerProtocol(m) &&
           !IsPerSensor(m) && !IsPerPolicy(m) && !IsPerPool(m) && !IsPerDrive(m);
    assert Text(m) == PerClientText(m);
  }

  lemma WorkloadNames(m: Metric)
    requires IsPerWorkload(m)
    ensures m.WorkloadOperations? ==> Text(m) == "powerscale_workload_operations_per_second"
    ensures m.WorkloadIn? ==> Text(m) == "powerscale_workload_in_bytes_per_second"
    ensures m.WorkloadOut? ==> Text(m) == "powerscale_workload_out_bytes_per_second"
    ensures m.WorkloadCpu? ==> Text(m) == "powerscale_workload_cpu_seconds_per_second"
  {
    assert !IsClusterWide(m) && !IsNodeCache(m) && !IsPerNode(m) && !IsPerQuota(m) && !IsPerProtocol(m) &&
           !IsPerSensor(m) && !IsPerPolicy(m) && !IsPerPool(m) && !IsPerDrive(m) && !IsPerClient(m);
    assert Text(m) == PerWorkloadText(m);
  }

  lemma SingleNames(m: Metric)
    requires IsSingle(m)
    ensures m.NodeHardwareInfo? ==> Text(m) == "powerscale_node_hardware_info"
    ensures m.ProtocolLatencyStage? ==> Text(m) == "powerscale_protocol_latency_stage_seconds"
    ensures m.NodeDrives? ==> Text(m) == "powerscale_node_drives"
    ensures m.ActiveEvents? ==> Text(m) == "powerscale_active_events"
    ensures m.LicenseExpiration? ==> Text(m) == "powerscale_license_expiration_timestamp_seconds"
    ensures m.LicenseActive? ==> Text(m) == "powerscale_license_active"
  {
    assert !IsClusterWide(m) && !IsNodeCache(m) && !IsPerNode(m) && !IsPerQuota(m) && !IsPerProtocol(m) &&
           !IsPerSensor(m) && !IsPerPolicy(m) && !IsPerPool(m) && !IsPerDrive(m) && !IsPerClient(m) &&
           !IsPerWorkload(m);
    assert Text(m) == SingleText(m);
  }

  // ---------------------------------------------------------------- statistics keys

  // The row of a key: its length and at most one of its characters tell.
  function RowOf(key: string): nat {
    match |key|
    case 14 => if key[13] == 'd' then 4 else 6
    case 15 => if key[13] == 'a' then 3 else 5
    case 16 => if key[15] == 'g' then 11 else 13
    case 17 => if key[12] == 'e' then 10 else 12
    case 19 => if key[18] == 'g' then 0 else 15
    case 20 => if key[15] == 'r' then 1 else 2
    case 23 => 7
    case 24 => 14
    case 29 => 8
    case 30 => 9
    case 31 => if key[16] == '1' then 16 else if key[16] == '2' then 18 else 20
    case 32 => if key[16] == '1' then 17 else if key[16] == '2' then 19 else 21
    case _ => 0
  }

  lemma ClusterLoadRows()
    ensures RowOf(STAT_KEYS[0].key) == 0
    ensures RowOf(STAT_KEYS[1].key) == 1
    ensures RowOf(STAT_KEYS[2].key) == 2
    ensures RowOf(STAT_KEYS[7].key) == 7
    ensures RowOf(STAT_KEYS[8].key) == 8
    ensures RowOf(STAT_KEYS[9].key) == 9
  {
  }

  lemma ClusterCapacityRows()
    ensures RowOf(STAT_KEYS[3].key) == 3
    ensures RowOf(STAT_KEYS[4].key) == 4
    ensures RowOf(STAT_KEYS[5].key) == 5
    ensures RowOf(STAT_KEYS[6].key) == 6
  {
  }

  lemma NodeLoadRows()
    ensures RowOf(STAT_KEYS[10].key) == 10
    ensures RowOf(STAT_KEYS[11].key) == 11
    ensures RowOf(STAT_KEYS[12].key) == 12
    ensures RowOf(STAT_KEYS[13].key) == 13
    ensures RowOf(STAT_KEYS[14].key) == 14
    ensures RowOf(STAT_KEYS[15].key) == 15
  {
  }

  lemma NodeCacheRows()
    ensures RowOf(STAT_KEYS[16].key) == 16
    ensures RowOf(STAT_KEYS[17].key) == 17
    ensures RowOf(STAT_KEYS[18].key) == 18
    ensures RowOf(STAT_KEYS[19].key) == 19
    ensures RowOf(STAT_KEYS[20].key) == 20
    ensures RowOf(STAT_KEYS[21].key) == 21
  {
  }

  lemma KeysTellRows(i: nat)
    requires i < |STAT_KEYS|
    ensures RowOf(STAT_KEYS[i].key) == i
  {
    ClusterLoadRows();
    ClusterCapacityRows();
    NodeLoadRows();
    NodeCacheRows();
  }

  // The table the program runs with holds this row.
  predicate IsRow(spec: StatKeySpec) {
    spec.key in KeyTable(STAT_KEYS) && KeyTable(STAT_KEYS)[spec.key] == spec
  }

  lemma RowIsHeld(i: nat, spec: StatKeySpec)
    requires i < |STAT_KEYS| && STAT_KEYS[i] == spec
    ensures IsRow(spec)
  {
    forall j | i < j < |STAT_KEYS| ensures STAT_KEYS[j].key != STAT_KEYS[i].key {
      KeysTellRows(i);
      KeysTellRows(j);
    }
    LastRowWins(STAT_KEYS, i);
  }

  lemma ClusterCpuKeys()
    ensures IsRow(StatKeySpec("cluster.cpu.sys.avg", ClusterCpuSys, ClusterScope, 10.0))
    ensures IsRow(StatKeySpec("cluster.cpu.user.avg", ClusterCpuUser, ClusterScope, 10.0))
    ensures IsRow(StatKeySpec("cluster.cpu.idle.avg", ClusterCpuIdle, ClusterScope, 10.0))
  {
    RowIsHeld(0, StatKeySpec("cluster.cpu.sys.avg", ClusterCpuSys, ClusterScope, 10.0));
    RowIsHeld(1, StatKeySpec("cluster.cpu.user.avg", ClusterCpuUser, ClusterScope, 10.0));
    RowIsHeld(2, StatKeySpec("cluster.cpu.idle.avg", ClusterCpuIdle, ClusterScope, 10.0));
  }

  lemma ClusterTrafficKeys()
    ensures IsRow(StatKeySpec("cluster.disk.xfers.rate", ClusterDiskOperations, ClusterScope, 0.0))
    ensures IsRow(StatKeySpec("cluster.net.ext.bytes.in.rate", ClusterNetIn, ClusterScope, 0.0))
    ensures IsRow(StatKeySpec("cluster.net.ext.bytes.out.rate", ClusterNetOut, ClusterScope, 0.0))
  {
    RowIsHeld(7, StatKeySpec("cluster.disk.xfers.rate", ClusterDiskOperations, ClusterScope, 0.0));
    RowIsHeld(8, StatKeySpec("cluster.net.ext.bytes.in.rate", ClusterNetIn, ClusterScope, 0.0));
    RowIsHeld(9, StatKeySpec("cluster.net.ext.bytes.out.rate", ClusterNetOut, ClusterScope, 0.0));
  }

  lemma ClusterSizeKeys()
    ensures IsRow(StatKeySpec("ifs.bytes.total", ClusterTotalCapacity, ClusterScope, 0.0))
    ensures IsRow(StatKeySpec("ifs.bytes.used", ClusterUsedCapacity, ClusterScope, 0.0))
  {
    RowIsHeld(3, StatKeySpec("ifs.bytes.total", ClusterTotalCapacity, ClusterScope, 0.0));
    RowIsHeld(4, StatKeySpec("ifs.bytes.used", ClusterUsedCapacity, ClusterScope, 0.0));
  }

  lemma ClusterSpaceKeys()
    ensures IsRow(StatKeySpec("ifs.bytes.avail", ClusterAvailableCapacity, ClusterScope, 0.0))
    ensures IsRow(StatKeySpec("ifs.bytes.free", ClusterFreeCapacity, ClusterScope, 0.0))
  {
    RowIsHeld(5, StatKeySpec("ifs.bytes.avail", ClusterAvailableCapacity, ClusterScope, 0.0));
    RowIsHeld(6, StatKeySpec("ifs.bytes.free", ClusterFreeCapacity, ClusterScope, 0.0));
  }

  lemma NodeCpuKeys()
    ensures IsRow(StatKeySpec("node.cpu.idle.avg", NodeCpuIdle, NodeScope, 10.0))
    ensures IsRow(StatKeySpec("node.cpu.sys.avg", NodeCpuSys, NodeScope, 10.0))
    ensures IsRow(StatKeySpec("node.cpu.user.avg", NodeCpuUser, NodeScope, 10.0))
  {
    RowIsHeld(10, StatKeySpec("node.cpu.idle.avg", NodeCpuIdle, NodeScope, 10.0));
    RowIsHeld(11, StatKeySpec("node.cpu.sys.avg", NodeCpuSys, NodeScope, 10.0));
    RowIsHeld(12, StatKeySpec("node.cpu.user.avg", NodeCpuUser, NodeScope, 10.0));
  }

  lemma NodeUsageKeys()
    ensures IsRow(StatKeySpec("node.memory.used", NodeMemoryUsed, NodeScope, 0.0))
    ensures IsRow(StatKeySpec("node.disk.xfers.rate.sum", NodeDiskOperations, NodeScope, 0.0))
    ensures IsRow(StatKeySpec("node.ifs.bytes.used", NodeUsedCapacity, NodeScope, 0.0))
  {
    RowIsHeld(13, StatKeySpec("node.memory.used", NodeMemoryUsed, NodeScope, 0.0));
    RowIsHeld(14, StatKeySpec("node.disk.xfers.rate.sum", NodeDiskOperations, NodeScope, 0.0));
    RowIsHeld(15, StatKeySpec("node.ifs.bytes.used", NodeUsedCapacity, NodeScope, 0.0));
  }

  lemma NodeCacheKeys()
    ensures IsRow(StatKeySpec("node.ifs.cache.l1.data.read.hit", NodeCacheL1Hit, NodeScope, 0.0))
    ensures IsRow(StatKeySpec("node.ifs.cache.l1.data.read.miss", NodeCacheL1Miss, NodeScope, 0.0))
    ensures IsRow(StatKeySpec("node.ifs.cache.l2.data.read.hit", NodeCacheL2Hit, NodeScope, 0.0))
    ensures IsRow(StatKeySpec("node.ifs.cache.l2.data.read.miss", NodeCacheL2Miss, NodeScope, 0.0))
    ensures IsRow(StatKeySpec("node.ifs.cache.l3.data.read.hit", NodeCacheL3Hit, NodeScope, 0.0))
    ensures IsRow(StatKeySpec("node.ifs.cache.l3.data.read.miss", NodeCacheL3Miss, NodeScope, 0.0))
  {
    RowIsHeld(16, StatKeySpec("node.ifs.cache.l1.data.read.hit", NodeCacheL1Hit, NodeScope, 0.0));
    RowIsHeld(17, StatKeySpec("node.ifs.cache.l1.data.read.miss", NodeCacheL1Miss, NodeScope, 0.0));
    RowIsHeld(18, StatKeySpec("node.ifs.cache.l2.data.read.hit", NodeCacheL2Hit, NodeScope, 0.0));
    RowIsHeld(19, StatKeySpec("node.ifs.cache.l2.data.read.miss", NodeCacheL2Miss, NodeScope, 0.0));
    RowIsHeld(20, StatKeySpec("node.ifs.cache.l3.data.read.hit", NodeCacheL3Hit, NodeScope, 0.0));
    RowIsHeld(21, StatKeySpec("node.ifs.cache.l3.data.read.miss", NodeCacheL3Miss, NodeScope, 0.0));
  }
}
