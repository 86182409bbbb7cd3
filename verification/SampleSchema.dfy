/** What holds of every sample of every builder: one label schema per metric, NUL-free label values where the
report's texts are NUL-free, and drive counts from the node health builder only
(internal/powerscale/derivations.go). */
module SampleSchema {
  import opened Wrappers
  import opened Strings
  import opened Metrics
  import opened Inventory
  import opened Derivations

  // What is promised of samples of the named cluster: `clean` that no label value holds a NUL, `drives` that
  // drive counts may occur.
  datatype Promise = Promise(cluster: string, id: string, clean: bool, drives: bool)

  // The label values that are not free: the node's is a number, the stage's one of those known.
  ghost predicate FixedParts(values: seq<string>, f: Family) {
    && (HasNode(f) ==> |values| > 2 && IsNumeral(values[2]))
    && (f == PerStage ==> |values| > 5 && values[5] in PROTOCOL_STAGES)
  }

  ghost predicate WellLabelled(labels: seq<Label>, f: Family, p: Promise) {
    && LabelledAs(labels, f, p.cluster, p.id)
    && (p.clean ==> NulFree(Values(labels)))
    && FixedParts(Values(labels), f)
  }

  ghost predicate Keeps(s: Sample, p: Promise) {
    WellLabelled(s.labels, FamilyOf(s.metric), p) && (s.metric == NodeDrives ==> p.drives)
  }

  ghost predicate AllKeep(samples: seq<Sample>, p: Promise) {
    forall i :: 0 <= i < |samples| ==> Keeps(samples[i], p)
  }

  // The cluster's own texts are NUL-free if the promise is to be.
  predicate Identified(p: Promise) {
    p.clean ==> NoNul(p.cluster) && NoNul(p.id)
  }

  lemma {:induction false} FlatMapKeeps<T>(rows: seq<T>, f: T -> seq<Sample>, p: Promise)
    requires forall i :: 0 <= i < |rows| ==> AllKeep(f(rows[i]), p)
    ensures AllKeep(FlatMap(rows, f), p)
  {
    if rows != [] {
      var k := |rows| - 1;
      assert forall i :: 0 <= i < k ==> rows[..k][i] == rows[i];
      FlatMapKeeps(rows[..k], f, p);
    }
  }

  lemma ConcatKeeps(a: seq<Sample>, b: seq<Sample>, p: Promise)
    requires AllKeep(a, p) && AllKeep(b, p)
    ensures AllKeep(a + b, p)
  {
  }

  lemma ConformsWhereKept(samples: seq<Sample>, p: Promise)
    requires AllKeep(samples, p)
    ensures AllConform(samples, p.cluster, p.id)
  {
    forall i | 0 <= i < |samples| ensures Conforms(samples[i], p.cluster, p.id) {
      assert Keeps(samples[i], p);
    }
  }

  lemma OneKeeps(s: Sample, f: Family, p: Promise)
    requires FamilyOf(s.metric) == f && WellLabelled(s.labels, f, p) && (f == PerDriveState ==> p.drives)
    ensures Keeps(s, p)
  {
  }

  lemma PairKeeps(samples: seq<Sample>, a: Sample, b: Sample, p: Promise)
    requires samples == [a, b] && Keeps(a, p) && Keeps(b, p)
    ensures AllKeep(samples, p)
  {
  }

  lemma SharedKeeps(labels: seq<Label>, values: seq<(Metric, real)>, f: Family, p: Promise)
    requires WellLabelled(labels, f, p) && f != PerDriveState
    requires forall i :: 0 <= i < |values| ==> FamilyOf(values[i].0) == f
    ensures AllKeep(Shared(labels, values), p)
  {
  }

  // ---------------------------------------------------------------- builder by builder

  lemma PoolValuesAreOfPools(s: StoragePool)
    ensures forall i :: 0 <= i < |PoolValues(s)| ==> FamilyOf(PoolValues(s)[i].0) == PerPool
  {
  }

  lemma ClientValuesAreOfClients(s: ClientStat)
    ensures forall i :: 0 <= i < |ClientValues(s)| ==> FamilyOf(ClientValues(s)[i].0) == PerClient
  {
  }

  lemma WorkloadValuesAreOfWorkloads(w: Workload)
    ensures forall i :: 0 <= i < |WorkloadValues(w)| ==> FamilyOf(WorkloadValues(w)[i].0) == PerWorkload
  {
  }

  lemma StatisticsKeep(table: map<string, StatKeySpec>, points: seq<StatPoint>, lnns: map<int, int>, p: Promise)
    requires forall k :: k in table ==> WellScoped(table[k])
    requires Identified(p)
    ensures AllKeep(FlatMap(points, StatRow(table, p.cluster, p.id, lnns)), p)
  {
    forall i | 0 <= i < |points| ensures AllKeep(StatRow(table, p.cluster, p.id, lnns)(points[i]), p) {
      if points[i].devId in lnns {
        ItoaHasNoNul(lnns[points[i].devId]);
      }
    }
    FlatMapKeeps(points, StatRow(table, p.cluster, p.id, lnns), p);
  }

  lemma QuotaKeeps(q: Quota, p: Promise)
    requires Identified(p) && (p.clean ==> q.HoldsNoNul())
    ensures AllKeep(QuotaRow(p.cluster, p.id)(q), p)
  {
    SharedKeeps(QuotaLabels(p.cluster, p.id, q.id, q.path, q.kind), QuotaValues(q), PerQuota, p);
  }

  lemma QuotasKeep(quotas: seq<Quota>, p: Promise)
    requires Identified(p) && (p.clean ==> forall q :: q in quotas ==> q.HoldsNoNul())
    ensures AllKeep(FlatMap(quotas, QuotaRow(p.cluster, p.id)), p)
  {
    forall i | 0 <= i < |quotas| ensures AllKeep(QuotaRow(p.cluster, p.id)(quotas[i]), p) {
      QuotaKeeps(quotas[i], p);
    }
    FlatMapKeeps(quotas, QuotaRow(p.cluster, p.id), p);
  }

  lemma StagesHaveNoNul()
    ensures NulFree(PROTOCOL_STAGES)
  {
  }

  lemma StageKeeps(s: ProtoStat, stage: string, p: Promise)
    requires Identified(p) && (p.clean ==> s.HoldsNoNul() && NoNul(stage)) && stage in PROTOCOL_STAGES
    ensures AllKeep(StageRow(ProtocolLabels(p.cluster, p.id, Itoa(s.node), s.protocol, s.operation), s)(stage), p)
  {
    ItoaHasNoNul(s.node);
    var labels := ProtocolLabels(p.cluster, p.id, Itoa(s.node), s.protocol, s.operation);
    var more := labels + [Label(LStage, stage)];
    assert Names(more) == Names(labels) + [LStage];
    assert OwnLabelNames(PerProtocol) + [LStage] == OwnLabelNames(PerStage);
    assert Values(more) == Values(labels) + [stage];
  }

  lemma ProtocolsKeep(stats: seq<ProtoStat>, p: Promise)
    requires Identified(p) && (p.clean ==> forall s :: s in stats ==> s.HoldsNoNul())
    ensures AllKeep(FlatMap(stats, ProtoRow(p.cluster, p.id)), p)
  {
    StagesHaveNoNul();
    forall i | 0 <= i < |stats| ensures AllKeep(ProtoRow(p.cluster, p.id)(stats[i]), p) {
      ProtocolKeeps(stats[i], p);
    }
    FlatMapKeeps(stats, ProtoRow(p.cluster, p.id), p);
  }

  lemma ProtocolTotalsKeep(s: ProtoStat, labels: seq<Label>, p: Promise)
    requires Identified(p) && (p.clean ==> s.HoldsNoNul())
    requires labels == ProtocolLabels(p.cluster, p.id, Itoa(s.node), s.protocol, s.operation)
    ensures AllKeep(ProtoTotals(labels, s), p)
  {
    ItoaHasNoNul(s.node);
    assert WellLabelled(labels, PerProtocol, p);
  }

  lemma StagesKeep(s: ProtoStat, labels: seq<Label>, p: Promise)
    requires Identified(p) && (p.clean ==> s.HoldsNoNul()) && NulFree(PROTOCOL_STAGES)
    requires labels == ProtocolLabels(p.cluster, p.id, Itoa(s.node), s.protocol, s.operation)
    ensures AllKeep(ProtoStages(labels, s), p)
  {
    forall k | 0 <= k < |PROTOCOL_STAGES| ensures AllKeep(StageRow(labels, s)(PROTOCOL_STAGES[k]), p) {
      StageKeeps(s, PROTOCOL_STAGES[k], p);
    }
    FlatMapKeeps(PROTOCOL_STAGES, StageRow(labels, s), p);
  }

  lemma ProtocolKeeps(s: ProtoStat, p: Promise)
    requires Identified(p) && (p.clean ==> s.HoldsNoNul()) && NulFree(PROTOCOL_STAGES)
    ensures AllKeep(ProtoRow(p.cluster, p.id)(s), p)
  {
    var labels := ProtocolLabels(p.cluster, p.id, Itoa(s.node), s.protocol, s.operation);
    ProtocolTotalsKeep(s, labels, p);
    StagesKeep(s, labels, p);
    ConcatKeeps(ProtoTotals(labels, s), ProtoStages(labels, s), p);
  }

  // Only here may drive counts occur.
  lemma {:induction false} NodeHealthKeeps(nodes: seq<Node>, orders: seq<seq<string>>, p: Promise)
    requires IsDriveOrders(orders, nodes) && p.drives
    requires Identified(p) && (p.clean ==> forall n :: n in nodes ==> n.HoldsNoNul())
    ensures AllKeep(NodeHealth(p.cluster, p.id, nodes, orders), p)
  {
    if nodes != [] {
      var k := |nodes| - 1;
      NodeHealthKeeps(nodes[..k], orders[..k], p);
      NodeKeeps(nodes[k], orders[k], p);
    }
  }

  lemma DrivesOfStateKeep(n: Node, state: string, p: Promise)
    requires p.drives && Identified(p) && (p.clean ==> n.HoldsNoNul())
    ensures AllKeep(DriveRow(p.cluster, p.id, n)(state), p)
  {
    ItoaHasNoNul(n.lnn);
    if state in n.drivesByState {
      OneKeeps(Sample(NodeDrives, DriveLabels(p.cluster, p.id, Itoa(n.lnn), state), n.drivesByState[state] as real),
               PerDriveState, p);
    }
  }

  lemma NodeStateKeeps(n: Node, p: Promise)
    requires Identified(p)
    ensures AllKeep([Sample(NodeReadonly, NodeLabels(p.cluster, p.id, Itoa(n.lnn)), B2F(n.readonly)),
                     Sample(NodeSmartfail, NodeLabels(p.cluster, p.id, Itoa(n.lnn)), B2F(n.smartfail))], p)
  {
    ItoaHasNoNul(n.lnn);
    assert WellLabelled(NodeLabels(p.cluster, p.id, Itoa(n.lnn)), PerNode, p);
  }

  lemma NodeKeeps(n: Node, order: seq<string>, p: Promise)
    requires Enumerates(order, n.drivesByState) && p.drives
    requires Identified(p) && (p.clean ==> n.HoldsNoNul())
    ensures AllKeep(NodeHealthRow(p.cluster, p.id, n, order), p)
  {
    NodeStateKeeps(n, p);
    forall k | 0 <= k < |order| ensures AllKeep(DriveRow(p.cluster, p.id, n)(order[k]), p) {
      DrivesOfStateKeep(n, order[k], p);
    }
    FlatMapKeeps(order, DriveRow(p.cluster, p.id, n), p);
  }

  lemma SensorsKeep(m: Metric, n: Node, sensors: seq<Sensor>, p: Promise)
    requires FamilyOf(m) == PerSensor
    requires Identified(p) && (p.clean ==> forall s :: s in sensors ==> NoNul(s.name))
    ensures AllKeep(FlatMap(sensors, SensorRow(m, p.cluster, p.id, n)), p)
  {
    ItoaHasNoNul(n.lnn);
    FlatMapKeeps(sensors, SensorRow(m, p.cluster, p.id, n), p);
  }

  lemma HardwareInfoKeeps(n: Node, p: Promise)
    requires Identified(p) && (p.clean ==> n.HoldsNoNul())
    ensures AllKeep(HardwareInfo(p.cluster, p.id, n), p)
  {
    ItoaHasNoNul(n.lnn);
    OneKeeps(Sample(NodeHardwareInfo, HardwareInfoLabels(p.cluster, p.id, Itoa(n.lnn), n.product, n.series, n.hwgen), 1.0),
             PerHardware, p);
  }

  lemma PowerSuppliesKeep(n: Node, p: Promise)
    requires Identified(p)
    ensures AllKeep(PowerSupplySamples(p.cluster, p.id, n), p)
  {
    ItoaHasNoNul(n.lnn);
    SharedKeeps(NodeLabels(p.cluster, p.id, Itoa(n.lnn)),
                [(NodePowerSupplies, n.powerSupplies as real), (NodePowerSupplyFailures, n.powerSupplyFailures as real)],
                PerNode, p);
  }

  lemma HardwareKeeps(nodes: seq<Node>, p: Promise)
    requires Identified(p) && (p.clean ==> forall n :: n in nodes ==> n.HoldsNoNul())
    ensures AllKeep(FlatMap(nodes, HardwareRow(p.cluster, p.id)), p)
  {
    forall i | 0 <= i < |nodes| ensures AllKeep(HardwareRow(p.cluster, p.id)(nodes[i]), p) {
      var n := nodes[i];
      HardwareInfoKeeps(n, p);
      PowerSuppliesKeep(n, p);
      SensorsKeep(NodeTemperature, n, n.temperatures, p);
      SensorsKeep(NodeFanSpeed, n, n.fans, p);
      var power := HardwareInfo(p.cluster, p.id, n) + PowerSupplySamples(p.cluster, p.id, n);
      var temps := FlatMap(n.temperatures, SensorRow(NodeTemperature, p.cluster, p.id, n));
      ConcatKeeps(HardwareInfo(p.cluster, p.id, n), PowerSupplySamples(p.cluster, p.id, n), p);
      ConcatKeeps(power, temps, p);
      ConcatKeeps(power + temps, FlatMap(n.fans, SensorRow(NodeFanSpeed, p.cluster, p.id, n)), p);
    }
    FlatMapKeeps(nodes, HardwareRow(p.cluster, p.id), p);
  }

  lemma SyncPolicyKeeps(s: SyncPolicy, p: Promise)
    requires Identified(p) && (p.clean ==> s.HoldsNoNul())
    ensures AllKeep(SyncRow(p.cluster, p.id)(s), p)
  {
    assert WellLabelled(PolicyLabels(p.cluster, p.id, s.name), PerPolicy, p);
  }

  lemma PoliciesKeep(policies: seq<SyncPolicy>, p: Promise)
    requires Identified(p) && (p.clean ==> forall s :: s in policies ==> s.HoldsNoNul())
    ensures AllKeep(FlatMap(policies, SyncRow(p.cluster, p.id)), p)
  {
    forall i | 0 <= i < |policies| ensures AllKeep(SyncRow(p.cluster, p.id)(policies[i]), p) {
      SyncPolicyKeeps(policies[i], p);
    }
    FlatMapKeeps(policies, SyncRow(p.cluster, p.id), p);
  }

  lemma EventKeeps(severity: string, events: map<string, int>, p: Promise)
    requires Identified(p) && (p.clean && severity in events ==> NoNul(severity))
    ensures AllKeep(EventRow(p.cluster, p.id, events)(severity), p)
  {
    if severity in events {
      OneKeeps(Sample(ActiveEvents, SeverityLabels(p.cluster, p.id, severity), events[severity] as real), PerSeverity, p);
    }
  }

  lemma EventsKeep(order: seq<string>, events: map<string, int>, p: Promise)
    requires Identified(p) && (p.clean ==> forall severity :: severity in events ==> NoNul(severity))
    ensures AllKeep(FlatMap(order, EventRow(p.cluster, p.id, events)), p)
  {
    forall i | 0 <= i < |order| ensures AllKeep(EventRow(p.cluster, p.id, events)(order[i]), p) {
      EventKeeps(order[i], events, p);
    }
    FlatMapKeeps(order, EventRow(p.cluster, p.id, events), p);
  }

  lemma LicenseExpirationKeeps(l: License, p: Promise)
    requires Identified(p) && (p.clean ==> l.HoldsNoNul())
    ensures Keeps(Sample(LicenseExpiration, LicenseLabels(p.cluster, p.id, l.name), l.expirationUnix as real), p)
  {
    OneKeeps(Sample(LicenseExpiration, LicenseLabels(p.cluster, p.id, l.name), l.expirationUnix as real), PerLicense, p);
  }

  lemma LicenseActiveKeeps(l: License, p: Promise)
    requires Identified(p) && (p.clean ==> l.HoldsNoNul())
    ensures Keeps(Sample(LicenseActive, LicenseActiveLabels(p.cluster, p.id, l.name, l.status), B2F(IsActive(l.status))), p)
  {
    OneKeeps(Sample(LicenseActive, LicenseActiveLabels(p.cluster, p.id, l.name, l.status), B2F(IsActive(l.status))),
             PerLicenseStatus, p);
  }

  lemma LicenseKeeps(l: License, p: Promise)
    requires Identified(p) && (p.clean ==> l.HoldsNoNul())
    ensures AllKeep(LicenseRow(p.cluster, p.id)(l), p)
  {
    LicenseExpirationKeeps(l, p);
    LicenseActiveKeeps(l, p);
    var row := LicenseRow(p.cluster, p.id)(l);
    PairKeeps(row, row[0], row[1], p);
  }

  lemma LicensesKeep(licenses: seq<License>, p: Promise)
    requires Identified(p) && (p.clean ==> forall l :: l in licenses ==> l.HoldsNoNul())
    ensures AllKeep(FlatMap(licenses, LicenseRow(p.cluster, p.id)), p)
  {
    forall i | 0 <= i < |licenses| ensures AllKeep(LicenseRow(p.cluster, p.id)(licenses[i]), p) {
      LicenseKeeps(licenses[i], p);
    }
    FlatMapKeeps(licenses, LicenseRow(p.cluster, p.id), p);
  }

  lemma StoragePoolKeeps(s: StoragePool, p: Promise)
    requires Identified(p) && (p.clean ==> s.HoldsNoNul())
    ensures AllKeep(PoolRow(p.cluster, p.id)(s), p)
  {
    PoolValuesAreOfPools(s);
    SharedKeeps(StoragePoolLabels(p.cluster, p.id, s.name, s.kind), PoolValues(s), PerPool, p);
  }

  lemma PoolsKeep(pools: seq<StoragePool>, p: Promise)
    requires Identified(p) && (p.clean ==> forall s :: s in pools ==> s.HoldsNoNul())
    ensures AllKeep(FlatMap(pools, PoolRow(p.cluster, p.id)), p)
  {
    forall i | 0 <= i < |pools| ensures AllKeep(PoolRow(p.cluster, p.id)(pools[i]), p) {
      StoragePoolKeeps(pools[i], p);
    }
    FlatMapKeeps(pools, PoolRow(p.cluster, p.id), p);
  }

  lemma DriveStatKeeps(d: DriveStat, p: Promise)
    requires Identified(p) && (p.clean ==> d.HoldsNoNul())
    ensures AllKeep(DriveStatRow(p.cluster, p.id)(d), p)
  {
    ItoaHasNoNul(d.node);
    SharedKeeps(DriveStatLabels(p.cluster, p.id, Itoa(d.node), d.bay, d.kind),
                [(DriveOperations, d.opsPerSec), (DriveBusy, d.busyPercent)], PerDrive, p);
  }

  lemma DrivesKeep(drives: seq<DriveStat>, p: Promise)
    requires Identified(p) && (p.clean ==> forall d :: d in drives ==> d.HoldsNoNul())
    ensures AllKeep(FlatMap(drives, DriveStatRow(p.cluster, p.id)), p)
  {
    forall i | 0 <= i < |drives| ensures AllKeep(DriveStatRow(p.cluster, p.id)(drives[i]), p) {
      DriveStatKeeps(drives[i], p);
    }
    FlatMapKeeps(drives, DriveStatRow(p.cluster, p.id), p);
  }

  lemma ClientStatKeeps(s: ClientStat, p: Promise)
    requires Identified(p) && (p.clean ==> s.HoldsNoNul())
    ensures AllKeep(ClientRow(p.cluster, p.id)(s), p)
  {
    ItoaHasNoNul(s.node);
    ClientValuesAreOfClients(s);
    SharedKeeps(ClientLabels(p.cluster, p.id, Itoa(s.node), s.protocol, s.protocolClass), ClientValues(s), PerClient, p);
  }

  lemma ClientsKeep(clients: seq<ClientStat>, p: Promise)
    requires Identified(p) && (p.clean ==> forall s :: s in clients ==> s.HoldsNoNul())
    ensures AllKeep(FlatMap(clients, ClientRow(p.cluster, p.id)), p)
  {
    forall i | 0 <= i < |clients| ensures AllKeep(ClientRow(p.cluster, p.id)(clients[i]), p) {
      ClientStatKeeps(clients[i], p);
    }
    FlatMapKeeps(clients, ClientRow(p.cluster, p.id), p);
  }

  lemma WorkloadKeeps(w: Workload, p: Promise)
    requires Identified(p) && (p.clean ==> w.HoldsNoNul())
    ensures AllKeep(WorkloadRow(p.cluster, p.id)(w), p)
  {
    ItoaHasNoNul(w.node);
    WorkloadValuesAreOfWorkloads(w);
    SharedKeeps(WorkloadLabels(p.cluster, p.id, Itoa(w.node), w.zone, w.protocol, w.username, w.systemName, w.jobType),
                WorkloadValues(w), PerWorkload, p);
  }

  lemma WorkloadsKeep(workloads: seq<Workload>, p: Promise)
    requires Identified(p) && (p.clean ==> forall w :: w in workloads ==> w.HoldsNoNul())
    ensures AllKeep(FlatMap(workloads, WorkloadRow(p.cluster, p.id)), p)
  {
    forall i | 0 <= i < |workloads| ensures AllKeep(WorkloadRow(p.cluster, p.id)(workloads[i]), p) {
      WorkloadKeeps(workloads[i], p);
    }
    FlatMapKeeps(workloads, WorkloadRow(p.cluster, p.id), p);
  }

  lemma SinglesKeep(inv: Inventory, p: Promise)
    requires Identified(p)
    ensures AllKeep(CountSamples(p.cluster, p.id, inv.counts), p)
    ensures AllKeep(SnapshotSamples(p.cluster, p.id, inv.snapshotUsed), p)
    ensures AllKeep(DedupeSamples(p.cluster, p.id, inv.dedupe), p)
  {
  }

  // ---------------------------------------------------------------- all samples

  // The texts of the report, and the cluster's own, are NUL-free if the promise is to be.
  predicate Reported(p: Promise, inv: Inventory, st: Option<Statistics>) {
    && p.id == inv.guid
    && (p.clean ==> NoNul(p.cluster) && inv.HoldsNoNul() && (st.Some? ==> st.value.HoldsNoNul()))
  }

  lemma UsageKeeps(table: map<string, StatKeySpec>, inv: Inventory, st: Option<Statistics>, p: Promise)
    requires forall k :: k in table ==> WellScoped(table[k])
    requires Reported(p, inv, st)
    ensures AllKeep(UsageSamples(table, p.cluster, inv, st), p)
  {
    if st.Some? {
      StatisticsKeep(table, st.value.current, LnnByDevId(inv.nodes), p);
      ProtocolsKeep(st.value.proto, p);
    }
    QuotasKeep(inv.quotas, p);
    SinglesKeep(inv, p);
    var stat, quotas := StatisticsSamples(table, p.cluster, inv, st), FlatMap(inv.quotas, QuotaRow(p.cluster, p.id));
    var counts, proto := CountSamples(p.cluster, p.id, inv.counts), ProtoSamples(p.cluster, p.id, st);
    ConcatKeeps(stat, quotas, p);
    ConcatKeeps(stat + quotas, counts, p);
    ConcatKeeps(stat + quotas + counts, proto, p);
  }

  lemma ResourcesKeep(inv: Inventory, order: seq<string>, p: Promise)
    requires Reported(p, inv, None)
    ensures AllKeep(ResourceSamples(p.cluster, inv, order), p)
  {
    SinglesKeep(inv, p);
    PoliciesKeep(inv.syncPolicies, p);
    EventsKeep(order, inv.events, p);
    LicensesKeep(inv.licenses, p);
    PoolsKeep(inv.storagePools, p);
    var c, id := p.cluster, p.id;
    var snapshots, sync := SnapshotSamples(c, id, inv.snapshotUsed), FlatMap(inv.syncPolicies, SyncRow(c, id));
    var events, dedupe := FlatMap(order, EventRow(c, id, inv.events)), DedupeSamples(c, id, inv.dedupe);
    var licenses, pools := FlatMap(inv.licenses, LicenseRow(c, id)), FlatMap(inv.storagePools, PoolRow(c, id));
    ConcatKeeps(snapshots, sync, p);
    ConcatKeeps(snapshots + sync, events, p);
    ConcatKeeps(snapshots + sync + events, dedupe, p);
    ConcatKeeps(snapshots + sync + events + dedupe, licenses, p);
    ConcatKeeps(snapshots + sync + events + dedupe + licenses, pools, p);
  }

  lemma PerformanceKeeps(inv: Inventory, st: Option<Statistics>, p: Promise)
    requires Reported(p, inv, st)
    ensures AllKeep(PerformanceSamples(p.cluster, p.id, st), p)
  {
    if st.Some? {
      DrivesKeep(st.value.drives, p);
      ClientsKeep(st.value.clients, p);
      WorkloadsKeep(st.value.workloads, p);
      var drives := FlatMap(st.value.drives, DriveStatRow(p.cluster, p.id));
      var clients := FlatMap(st.value.clients, ClientRow(p.cluster, p.id));
      ConcatKeeps(drives, clients, p);
      ConcatKeeps(drives + clients, FlatMap(st.value.workloads, WorkloadRow(p.cluster, p.id)), p);
    }
  }

  lemma AllSamplesKeep(table: map<string, StatKeySpec>, inv: Inventory, st: Option<Statistics>, o: Order, p: Promise)
    requires forall k :: k in table ==> WellScoped(table[k])
    requires IsOrder(o, inv) && Reported(p, inv, st) && p.drives
    ensures AllKeep(Samples(table, p.cluster, inv, st, o), p)
  {
    var usage, nodes := UsageSamples(table, p.cluster, inv, st), NodeSamples(p.cluster, inv, o.drives);
    var resources, performance := ResourceSamples(p.cluster, inv, o.events), PerformanceSamples(p.cluster, p.id, st);
    UsageKeeps(table, inv, st, p);
    NodeHealthKeeps(inv.nodes, o.drives, p);
    HardwareKeeps(inv.nodes, p);
    ConcatKeeps(NodeHealth(p.cluster, p.id, inv.nodes, o.drives), FlatMap(inv.nodes, HardwareRow(p.cluster, p.id)), p);
    ResourcesKeep(inv, o.events, p);
    PerformanceKeeps(inv, st, p);
    ConcatKeeps(usage, nodes, p);
    ConcatKeeps(usage + nodes, resources, p);
    ConcatKeeps(usage + nodes + resources, performance, p);
  }

  /** Whatever a cluster reports, every sample carries exactly the label names of its metric, led by
  the cluster's name and id. */
  lemma OneSchemaPerMetric(table: map<string, StatKeySpec>, c: string, inv: Inventory, st: Option<Statistics>, o: Order)
    requires forall k :: k in table ==> WellScoped(table[k])
    requires IsOrder(o, inv)
    ensures AllConform(Samples(table, c, inv, st, o), c, inv.guid)
  {
    var p := Promise(c, inv.guid, false, true);
    AllSamplesKeep(table, inv, st, o, p);
    ConformsWhereKept(Samples(table, c, inv, st, o), p);
  }

  /** Where the cluster's name and the texts it reports hold no NUL, no label value does. */
  lemma NulFreeReportsGiveNulFreeLabels(table: map<string, StatKeySpec>, c: string, inv: Inventory, st: Option<Statistics>,
                                        o: Order)
    requires forall k :: k in table ==> WellScoped(table[k])
    requires IsOrder(o, inv)
    requires NoNul(c) && inv.HoldsNoNul() && (st.Some? ==> st.value.HoldsNoNul())
    ensures forall s :: s in Samples(table, c, inv, st, o) ==> NulFree(Values(s.labels))
  {
    var p := Promise(c, inv.guid, true, true);
    AllSamplesKeep(table, inv, st, o, p);
    forall s | s in Samples(table, c, inv, st, o) ensures NulFree(Values(s.labels)) {
      assert Keeps(s, p);
    }
  }
}
