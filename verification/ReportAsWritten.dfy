/** Which samples a cluster's report becomes: one disjunction over its rows, whatever order the maps are visited in
(internal/powerscale/derivations.go, function BuildSamples). */
module ReportAsWritten {
  import opened Wrappers
  import opened Strings
  import opened Metrics
  import opened MetricNames
  import opened Inventory
  import opened Derivations
  import opened NodeHardware
  import opened SamplesAsWritten

  type Table = map<string, StatKeySpec>

  // ---------------------------------------------------------------- what a report says

  ghost predicate UsageSays(table: Table, c: string, inv: Inventory, st: Option<Statistics>, s: Sample) {
    || (st.Some? && exists p :: p in st.value.current && StatisticSays(table, c, inv, p, s))
    || (exists q :: q in inv.quotas && QuotaSays(c, inv.guid, q, s))
    || (st.Some? && exists p :: p in st.value.proto && ProtocolSays(c, inv.guid, p, s))
  }

  ghost predicate NodesSay(c: string, inv: Inventory, s: Sample) {
    exists n :: n in inv.nodes && (HealthSays(c, inv.guid, n, s) || HardwareSays(c, inv.guid, n, s))
  }

  ghost predicate ResourcesSay(c: string, inv: Inventory, s: Sample) {
    || (exists p :: p in inv.syncPolicies && PolicySays(c, inv.guid, p, s))
    || (exists severity :: severity in inv.events && EventSays(c, inv.guid, inv.events, severity, s))
    || (exists l :: l in inv.licenses && LicenseSays(c, inv.guid, l, s))
    || (exists p :: p in inv.storagePools && PoolSays(c, inv.guid, p, s))
  }

  ghost predicate PerformanceSays(c: string, id: string, st: Statistics, s: Sample) {
    || (exists d :: d in st.drives && DriveSays(c, id, d, s))
    || (exists r :: r in st.clients && ClientSays(c, id, r, s))
    || (exists w :: w in st.workloads && WorkloadSays(c, id, w, s))
  }

  /** `s` is a sample of the report: a single value, or one of some row's. */
  ghost predicate Says(table: Table, c: string, inv: Inventory, st: Option<Statistics>, s: Sample) {
    || SingleSays(c, inv, s)
    || UsageSays(table, c, inv, st, s)
    || NodesSay(c, inv, s)
    || ResourcesSay(c, inv, s)
    || (st.Some? && PerformanceSays(c, inv.guid, st.value, s))
  }

  // ---------------------------------------------------------------- builder by builder

  lemma InStatistics(table: Table, c: string, inv: Inventory, st: Statistics, s: Sample)
    ensures s in FlatMap(st.current, StatRow(table, c, inv.guid, LnnByDevId(inv.nodes)))
       <==> exists p :: p in st.current && StatisticSays(table, c, inv, p, s)
  {
    var f := StatRow(table, c, inv.guid, LnnByDevId(inv.nodes));
    InRows(st.current, f, s);
    forall p ensures s in f(p) <==> StatisticSays(table, c, inv, p, s) {
      StatisticAsWritten(table, c, inv, p, s);
    }
  }

  lemma InQuotas(c: string, id: string, quotas: seq<Quota>, s: Sample)
    ensures s in FlatMap(quotas, QuotaRow(c, id)) <==> exists q :: q in quotas && QuotaSays(c, id, q, s)
  {
    InRows(quotas, QuotaRow(c, id), s);
    forall q ensures s in QuotaRow(c, id)(q) <==> QuotaSays(c, id, q, s) {
      QuotaAsWritten(c, id, q, s);
    }
  }

  lemma InProtocols(c: string, id: string, rows: seq<ProtoStat>, s: Sample)
    ensures s in FlatMap(rows, ProtoRow(c, id)) <==> exists p :: p in rows && ProtocolSays(c, id, p, s)
  {
    InRows(rows, ProtoRow(c, id), s);
    forall p ensures s in ProtoRow(c, id)(p) <==> ProtocolSays(c, id, p, s) {
      ProtocolAsWritten(c, id, p, s);
    }
  }

  lemma {:induction false} InByNode(f: (Node, seq<string>) -> seq<Sample>, nodes: seq<Node>, orders: seq<seq<string>>, s: Sample)
    requires |orders| == |nodes|
    ensures s in ByNode(f, nodes, orders) <==> exists i :: 0 <= i < |nodes| && s in f(nodes[i], orders[i])
  {
    if nodes != [] {
      var k := |nodes| - 1;
      InByNode(f, nodes[..k], orders[..k], s);
      InBoth(ByNode(f, nodes[..k], orders[..k]), f(nodes[k], orders[k]), s);
      assert forall i :: 0 <= i < k ==> nodes[..k][i] == nodes[i] && orders[..k][i] == orders[i];
    }
  }

  lemma InHealth(c: string, id: string, nodes: seq<Node>, orders: seq<seq<string>>, s: Sample)
    requires IsDriveOrders(orders, nodes)
    ensures s in NodeHealth(c, id, nodes, orders) <==> exists n :: n in nodes && HealthSays(c, id, n, s)
  {
    InByNode(HealthRow(c, id), nodes, orders, s);
    forall i | 0 <= i < |nodes| ensures s in HealthRow(c, id)(nodes[i], orders[i]) <==> HealthSays(c, id, nodes[i], s) {
      OrderOfEachNode(orders, nodes, i);
      HealthAsWritten(c, id, nodes[i], orders[i], s);
    }
  }

  lemma InHardwareOfAll(c: string, id: string, nodes: seq<Node>, s: Sample)
    ensures s in FlatMap(nodes, HardwareRow(c, id)) <==> exists n :: n in nodes && HardwareSays(c, id, n, s)
  {
    InRows(nodes, HardwareRow(c, id), s);
    forall n ensures s in HardwareRow(c, id)(n) <==> HardwareSays(c, id, n, s) {
      HardwareAsWritten(c, id, n, s);
    }
  }

  lemma InPolicies(c: string, id: string, policies: seq<SyncPolicy>, s: Sample)
    ensures s in FlatMap(policies, SyncRow(c, id)) <==> exists p :: p in policies && PolicySays(c, id, p, s)
  {
    InRows(policies, SyncRow(c, id), s);
    forall p ensures s in SyncRow(c, id)(p) <==> PolicySays(c, id, p, s) {
      PolicyAsWritten(c, id, p, s);
    }
  }

  lemma InEvents(c: string, id: string, events: map<string, int>, order: seq<string>, s: Sample)
    requires Enumerates(order, events)
    ensures s in FlatMap(order, EventRow(c, id, events))
       <==> exists severity :: severity in events && EventSays(c, id, events, severity, s)
  {
    InRows(order, EventRow(c, id, events), s);
    forall severity ensures s in EventRow(c, id, events)(severity) <==> EventSays(c, id, events, severity, s) {
      EventAsWritten(c, id, events, severity, s);
    }
  }

  lemma InLicenses(c: string, id: string, licenses: seq<License>, s: Sample)
    ensures s in FlatMap(licenses, LicenseRow(c, id)) <==> exists l :: l in licenses && LicenseSays(c, id, l, s)
  {
    InRows(licenses, LicenseRow(c, id), s);
    forall l ensures s in LicenseRow(c, id)(l) <==> LicenseSays(c, id, l, s) {
      LicenseAsWritten(c, id, l, s);
    }
  }

  lemma InPools(c: string, id: string, pools: seq<StoragePool>, s: Sample)
    ensures s in FlatMap(pools, PoolRow(c, id)) <==> exists p :: p in pools && PoolSays(c, id, p, s)
  {
    InRows(pools, PoolRow(c, id), s);
    forall p ensures s in PoolRow(c, id)(p) <==> PoolSays(c, id, p, s) {
      PoolAsWritten(c, id, p, s);
    }
  }

  lemma InDrives(c: string, id: string, drives: seq<DriveStat>, s: Sample)
    ensures s in FlatMap(drives, DriveStatRow(c, id)) <==> exists d :: d in drives && DriveSays(c, id, d, s)
  {
    InRows(drives, DriveStatRow(c, id), s);
    forall d ensures s in DriveStatRow(c, id)(d) <==> DriveSays(c, id, d, s) {
      DriveAsWritten(c, id, d, s);
    }
  }

  lemma InClients(c: string, id: string, clients: seq<ClientStat>, s: Sample)
    ensures s in FlatMap(clients, ClientRow(c, id)) <==> exists r :: r in clients && ClientSays(c, id, r, s)
  {
    InRows(clients, ClientRow(c, id), s);
    forall r ensures s in ClientRow(c, id)(r) <==> ClientSays(c, id, r, s) {
      ClientAsWritten(c, id, r, s);
    }
  }

  lemma InWorkloads(c: string, id: string, workloads: seq<Workload>, s: Sample)
    ensures s in FlatMap(workloads, WorkloadRow(c, id)) <==> exists w :: w in workloads && WorkloadSays(c, id, w, s)
  {
    InRows(workloads, WorkloadRow(c, id), s);
    forall w ensures s in WorkloadRow(c, id)(w) <==> WorkloadSays(c, id, w, s) {
      WorkloadAsWritten(c, id, w, s);
    }
  }

  // ---------------------------------------------------------------- all of them together

  lemma InFour(a: seq<Sample>, b: seq<Sample>, d: seq<Sample>, e: seq<Sample>, s: Sample)
    ensures s in a + b + d + e <==> s in a || s in b || s in d || s in e
  {
    InBoth(a, b, s);
    InBoth(a + b, d, s);
    InBoth(a + b + d, e, s);
  }

  lemma InUsage(table: Table, c: string, inv: Inventory, st: Option<Statistics>, s: Sample)
    ensures s in UsageSamples(table, c, inv, st)
       <==> UsageSays(table, c, inv, st, s) || s in CountSamples(c, inv.guid, inv.counts)
  {
    InFour(StatisticsSamples(table, c, inv, st), FlatMap(inv.quotas, QuotaRow(c, inv.guid)),
           CountSamples(c, inv.guid, inv.counts), ProtoSamples(c, inv.guid, st), s);
    InQuotas(c, inv.guid, inv.quotas, s);
    if st.Some? {
      InStatistics(table, c, inv, st.value, s);
      InProtocols(c, inv.guid, st.value.proto, s);
    }
  }

  lemma InNodes(c: string, inv: Inventory, drives: seq<seq<string>>, s: Sample)
    requires IsDriveOrders(drives, inv.nodes)
    ensures s in NodeSamples(c, inv, drives) <==> NodesSay(c, inv, s)
  {
    InBoth(NodeHealth(c, inv.guid, inv.nodes, drives), FlatMap(inv.nodes, HardwareRow(c, inv.guid)), s);
    InHealth(c, inv.guid, inv.nodes, drives, s);
    InHardwareOfAll(c, inv.guid, inv.nodes, s);
  }

  lemma InSix(a: seq<Sample>, b: seq<Sample>, d: seq<Sample>, e: seq<Sample>, f: seq<Sample>, g: seq<Sample>, s: Sample)
    ensures s in a + b + d + e + f + g <==> s in a || s in b || s in d || s in e || s in f || s in g
  {
    InFour(a, b, d, e, s);
    InBoth(a + b + d + e, f, s);
    InBoth(a + b + d + e + f, g, s);
  }

  lemma InResources(c: string, inv: Inventory, events: seq<string>, s: Sample)
    requires Enumerates(events, inv.events)
    ensures s in ResourceSamples(c, inv, events) <==>
            || ResourcesSay(c, inv, s)
            || s in SnapshotSamples(c, inv.guid, inv.snapshotUsed) || s in DedupeSamples(c, inv.guid, inv.dedupe)
  {
    InSix(SnapshotSamples(c, inv.guid, inv.snapshotUsed), FlatMap(inv.syncPolicies, SyncRow(c, inv.guid)),
          FlatMap(events, EventRow(c, inv.guid, inv.events)), DedupeSamples(c, inv.guid, inv.dedupe),
          FlatMap(inv.licenses, LicenseRow(c, inv.guid)), FlatMap(inv.storagePools, PoolRow(c, inv.guid)), s);
    InPolicies(c, inv.guid, inv.syncPolicies, s);
    InEvents(c, inv.guid, inv.events, events, s);
    InLicenses(c, inv.guid, inv.licenses, s);
    InPools(c, inv.guid, inv.storagePools, s);
  }

  lemma InPerformance(c: string, id: string, st: Statistics, s: Sample)
    ensures s in PerformanceSamples(c, id, Some(st)) <==> PerformanceSays(c, id, st, s)
  {
    var drives, clients := FlatMap(st.drives, DriveStatRow(c, id)), FlatMap(st.clients, ClientRow(c, id));
    InBoth(drives, clients, s);
    InBoth(drives + clients, FlatMap(st.workloads, WorkloadRow(c, id)), s);
    InDrives(c, id, st.drives, s);
    InClients(c, id, st.clients, s);
    InWorkloads(c, id, st.workloads, s);
  }

  /** The samples of a cluster are exactly what its report says, for every inventory, statistics and map order. */
  lemma SamplesAreTheReport(table: Table, c: string, inv: Inventory, st: Option<Statistics>, o: Order, s: Sample)
    requires IsOrder(o, inv)
    ensures s in Samples(table, c, inv, st, o) <==> Says(table, c, inv, st, s)
  {
    InFour(UsageSamples(table, c, inv, st), NodeSamples(c, inv, o.drives), ResourceSamples(c, inv, o.events),
           PerformanceSamples(c, inv.guid, st), s);
    InUsage(table, c, inv, st, s);
    InNodes(c, inv, o.drives, s);
    InResources(c, inv, o.events, s);
    if st.Some? {
      InPerformance(c, inv.guid, st.value, s);
    }
    SinglesAsWritten(c, inv, s);
  }

  // ---------------------------------------------------------------- by exported name

  // Labels by exported name.
  function Written(labels: seq<Label>): seq<(string, string)> {
    seq(|labels|, i requires 0 <= i < |labels| => (LabelText(labels[i].name), labels[i].value))
  }

  // A sample is exported under this name, with these labels and this value.
  ghost predicate Exports(samples: seq<Sample>, name: string, labels: seq<(string, string)>, v: real) {
    exists s :: s in samples && Text(s.metric) == name && Written(s.labels) == labels && s.value == v
  }

  lemma WrittenIsInjective(a: seq<Label>, b: seq<Label>)
    requires Written(a) == Written(b)
    ensures a == b
  {
    assert |a| == |Written(a)| == |Written(b)| == |b|;
    forall i | 0 <= i < |a| ensures a[i] == b[i] {
      assert Written(a)[i] == Written(b)[i];
      LabelTextIsInjective(a[i].name, b[i].name);
    }
  }

  // Name, labels and value tell the sample.
  lemma ExportTellsTheSample(samples: seq<Sample>, s: Sample)
    ensures Exports(samples, Text(s.metric), Written(s.labels), s.value) <==> s in samples
  {
    if Exports(samples, Text(s.metric), Written(s.labels), s.value) {
      var t :| t in samples && Text(t.metric) == Text(s.metric) && Written(t.labels) == Written(s.labels) && t.value == s.value;
      TextIsInjective(t.metric, s.metric);
      WrittenIsInjective(t.labels, s.labels);
    }
  }

  /** By exported name: a name, labels and value are exported exactly when the report says so of their metric and labels,
  and nothing is exported under any other name. */
  lemma ExportsAreTheReport(table: Table, c: string, inv: Inventory, st: Option<Statistics>, o: Order, s: Sample)
    requires IsOrder(o, inv)
    ensures Exports(Samples(table, c, inv, st, o), Text(s.metric), Written(s.labels), s.value) <==> Says(table, c, inv, st, s)
    ensures forall name, labels, v :: Exports(Samples(table, c, inv, st, o), name, labels, v) ==>
              exists t: Sample :: Text(t.metric) == name && Written(t.labels) == labels && t.value == v
  {
    SamplesAreTheReport(table, c, inv, st, o, s);
    ExportTellsTheSample(Samples(table, c, inv, st, o), s);
  }
}
