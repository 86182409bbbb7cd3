/** Samples from one cluster's inventory and statistics (internal/powerscale/derivations.go). */
module Derivations {
  import opened Wrappers
  import opened Strings
  import opened Paths
  import opened Metrics
  import opened Inventory

  const PROTOCOL_STAGES: seq<string> :=
    ["auth", "export", "fha_blocking", "fiber_block_quota", "kernel", "spark_dispatch", "total_elapsed"]

  const MICROS_PER_SECOND := 1000000.0

  function B2F(b: bool): real {
    if b then 1.0 else 0.0
  }

  // ---------------------------------------------------------------- rows

  // Most builders append the samples of one row after another.
  function FlatMap<T>(rows: seq<T>, f: T -> seq<Sample>): seq<Sample> {
    if rows == [] then [] else FlatMap(rows[..|rows| - 1], f) + f(rows[|rows| - 1])
  }

  method AppendRows<T>(rows: seq<T>, f: T -> seq<Sample>) returns (out: seq<Sample>)
    ensures out == FlatMap(rows, f)
  {
    out := [];
    for i := 0 to |rows|
      invariant out == FlatMap(rows[..i], f)
    {
      assert rows[..i + 1][..i] == rows[..i];
      out := out + f(rows[i]);
    }
    assert rows[..|rows|] == rows;
  }

  function LnnByDevId(nodes: seq<Node>): map<int, int> {
    if nodes == [] then map[]
    else LnnByDevId(nodes[..|nodes| - 1])[nodes[|nodes| - 1].id := nodes[|nodes| - 1].lnn]
  }

  function StatRow(table: map<string, StatKeySpec>, c: string, id: string, lnns: map<int, int>): StatPoint -> seq<Sample> {
    (p: StatPoint) =>
      if p.key !in table then []
      else
        var spec := table[p.key];
        match spec.scope
        case NodeScope =>
          if p.devId !in lnns then []
          else [Sample(spec.metric, NodeLabels(c, id, Itoa(lnns[p.devId])), Scale(spec, p.value))]
        case ClusterScope => [Sample(spec.metric, BaseLabels(c, id), Scale(spec, p.value))]
  }

  // Samples that share their labels.
  function Shared(labels: seq<Label>, values: seq<(Metric, real)>): seq<Sample> {
    seq(|values|, i requires 0 <= i < |values| => Sample(values[i].0, labels, values[i].1))
  }

  function IfPositive(m: Metric, v: real): seq<(Metric, real)> {
    if v > 0.0 then [(m, v)] else []
  }

  function QuotaValues(q: Quota): seq<(Metric, real)> {
    [(QuotaUsage, q.usage), (QuotaApplicationUsage, q.appLogical)]
    + IfPositive(QuotaPhysicalUsage, q.physical)
    + IfPositive(QuotaReductionRatio, q.reductionRatio)
    + IfPositive(QuotaHardThreshold, q.hard)
    + IfPositive(QuotaSoftThreshold, q.soft)
    + IfPositive(QuotaAdvisoryThreshold, q.advisory)
  }

  function QuotaRow(c: string, id: string): Quota -> seq<Sample> {
    (q: Quota) => Shared(QuotaLabels(c, id, q.id, q.path, q.kind), QuotaValues(q))
  }

  function CountSamples(c: string, id: string, counts: Counts): seq<Sample> {
    var base := BaseLabels(c, id);
    [Sample(NfsExports, base, counts.nfsExports as real),
     Sample(SmbShares, base, counts.smbShares as real),
     Sample(Snapshots, base, counts.snapshots as real)]
  }

  function StageRow(labels: seq<Label>, p: ProtoStat): string -> seq<Sample> {
    (stage: string) =>
      if stage in p.stageAvg
      then [Sample(ProtocolLatencyStage, labels + [Label(LStage, stage)], p.stageAvg[stage] / MICROS_PER_SECOND)]
      else []
  }

  function ProtoTotals(labels: seq<Label>, p: ProtoStat): seq<Sample> {
    [Sample(ProtocolOperations, labels, p.operationRate), Sample(ProtocolLatency, labels, p.latencyAvg / MICROS_PER_SECOND)]
  }

  function ProtoStages(labels: seq<Label>, p: ProtoStat): seq<Sample> {
    FlatMap(PROTOCOL_STAGES, StageRow(labels, p))
  }

  function ProtoRow(c: string, id: string): ProtoStat -> seq<Sample> {
    (p: ProtoStat) =>
      var labels := ProtocolLabels(c, id, Itoa(p.node), p.protocol, p.operation);
      ProtoTotals(labels, p) + ProtoStages(labels, p)
  }

  function DriveRow(c: string, id: string, n: Node): string -> seq<Sample> {
    (state: string) =>
      if state in n.drivesByState
      then [Sample(NodeDrives, DriveLabels(c, id, Itoa(n.lnn), state), n.drivesByState[state] as real)]
      else []
  }

  // The states of the node's drives are visited in some order.
  function NodeHealthRow(c: string, id: string, n: Node, order: seq<string>): seq<Sample> {
    var base := NodeLabels(c, id, Itoa(n.lnn));
    [Sample(NodeReadonly, base, B2F(n.readonly)), Sample(NodeSmartfail, base, B2F(n.smartfail))]
    + FlatMap(order, DriveRow(c, id, n))
  }

  function HealthRow(c: string, id: string): (Node, seq<string>) -> seq<Sample> {
    (n: Node, order: seq<string>) => NodeHealthRow(c, id, n, order)
  }

  function ByNode(f: (Node, seq<string>) -> seq<Sample>, nodes: seq<Node>, orders: seq<seq<string>>): seq<Sample>
    requires |orders| == |nodes|
  {
    var k := |nodes| - 1;
    if nodes == [] then [] else ByNode(f, nodes[..k], orders[..k]) + f(nodes[k], orders[k])
  }

  function NodeHealth(c: string, id: string, nodes: seq<Node>, orders: seq<seq<string>>): seq<Sample>
    requires |orders| == |nodes|
  {
    ByNode(HealthRow(c, id), nodes, orders)
  }

  function SensorRow(m: Metric, c: string, id: string, n: Node): Sensor -> seq<Sample> {
    (s: Sensor) => [Sample(m, SensorLabels(c, id, Itoa(n.lnn), s.name), s.value)]
  }

  function HardwareInfo(c: string, id: string, n: Node): seq<Sample> {
    if n.product == "" && n.series == "" && n.hwgen == "" then []
    else [Sample(NodeHardwareInfo, HardwareInfoLabels(c, id, Itoa(n.lnn), n.product, n.series, n.hwgen), 1.0)]
  }

  function PowerSupplySamples(c: string, id: string, n: Node): seq<Sample> {
    if n.powerSupplies > 0 then
      Shared(NodeLabels(c, id, Itoa(n.lnn)),
             [(NodePowerSupplies, n.powerSupplies as real), (NodePowerSupplyFailures, n.powerSupplyFailures as real)])
    else []
  }

  function HardwareOf(c: string, id: string, n: Node): seq<Sample> {
    HardwareInfo(c, id, n) + PowerSupplySamples(c, id, n)
    + FlatMap(n.temperatures, SensorRow(NodeTemperature, c, id, n))
    + FlatMap(n.fans, SensorRow(NodeFanSpeed, c, id, n))
  }

  function HardwareRow(c: string, id: string): Node -> seq<Sample> {
    (n: Node) => HardwareOf(c, id, n)
  }

  function SnapshotSamples(c: string, id: string, used: real): seq<Sample> {
    [Sample(SnapshotUsed, BaseLabels(c, id), used)]
  }

  function SyncRow(c: string, id: string): SyncPolicy -> seq<Sample> {
    (p: SyncPolicy) =>
      var labels := PolicyLabels(c, id, p.name);
      [Sample(SyncIqEnabled, labels, B2F(p.enabled)),
       Sample(SyncIqLastRunFailed, labels, B2F(p.lastJobState in ["failed", "needs_attention", "unknown"]))]
  }

  function EventRow(c: string, id: string, events: map<string, int>): string -> seq<Sample> {
    (severity: string) =>
      if severity in events then [Sample(ActiveEvents, SeverityLabels(c, id, severity), events[severity] as real)] else []
  }

  function DedupeSamples(c: string, id: string, d: DedupeSummary): seq<Sample> {
    var base := BaseLabels(c, id);
    [Sample(DedupeLogicalSaved, base, d.logicalSaved), Sample(DedupeDeduplicated, base, d.deduplicated)]
  }

  predicate IsActive(status: string) {
    Lower(TrimSpace(status)) in ["licensed", "activated", "evaluation"]
  }

  function LicenseRow(c: string, id: string): License -> seq<Sample> {
    (l: License) =>
      [Sample(LicenseExpiration, LicenseLabels(c, id, l.name), l.expirationUnix as real),
       Sample(LicenseActive, LicenseActiveLabels(c, id, l.name, l.status), B2F(IsActive(l.status)))]
  }

  function PoolValues(p: StoragePool): seq<(Metric, real)> {
    [(PoolTotal, p.total), (PoolUsed, p.used), (PoolAvailable, p.avail),
     (PoolSsdTotal, p.ssdTotal), (PoolSsdUsed, p.ssdUsed), (PoolSsdAvailable, p.ssdAvail),
     (PoolHddTotal, p.hddTotal), (PoolHddUsed, p.hddUsed), (PoolHddAvailable, p.hddAvail)]
  }

  function PoolRow(c: string, id: string): StoragePool -> seq<Sample> {
    (p: StoragePool) => Shared(StoragePoolLabels(c, id, p.name, p.kind), PoolValues(p))
  }

  function DriveStatRow(c: string, id: string): DriveStat -> seq<Sample> {
    (d: DriveStat) =>
      Shared(DriveStatLabels(c, id, Itoa(d.node), d.bay, d.kind), [(DriveOperations, d.opsPerSec), (DriveBusy, d.busyPercent)])
  }

  function ClientValues(s: ClientStat): seq<(Metric, real)> {
    [(ClientOperations, s.opsPerSec), (ClientIn, s.inBps), (ClientOut, s.outBps)]
  }

  function ClientRow(c: string, id: string): ClientStat -> seq<Sample> {
    (s: ClientStat) =>
      Shared(ClientLabels(c, id, Itoa(s.node), s.protocol, s.protocolClass), ClientValues(s))
  }

  function WorkloadValues(w: Workload): seq<(Metric, real)> {
    [(WorkloadOperations, w.ops), (WorkloadIn, w.bytesIn), (WorkloadOut, w.bytesOut),
     (WorkloadCpu, w.cpuMicros / MICROS_PER_SECOND)]
  }

  function WorkloadRow(c: string, id: string): Workload -> seq<Sample> {
    (w: Workload) =>
      Shared(WorkloadLabels(c, id, Itoa(w.node), w.zone, w.protocol, w.username, w.systemName, w.jobType), WorkloadValues(w))
  }

  // ---------------------------------------------------------------- all samples of a cluster

  // Orders in which the maps of an inventory are visited: drive states node by node, and event severities.
  datatype Order = Order(drives: seq<seq<string>>, events: seq<string>)

  ghost predicate Enumerates<T>(order: seq<string>, m: map<string, T>) {
    NoDuplicates(order) && forall k :: k in order <==> k in m
  }

  // One order for the drive states of each node.
  ghost predicate IsDriveOrders(orders: seq<seq<string>>, nodes: seq<Node>) {
    var k := |nodes| - 1;
    && |orders| == |nodes|
    && (nodes == [] || (IsDriveOrders(orders[..k], nodes[..k]) && Enumerates(orders[k], nodes[k].drivesByState)))
  }

  ghost predicate IsOrder(o: Order, inv: Inventory) {
    IsDriveOrders(o.drives, inv.nodes) && Enumerates(o.events, inv.events)
  }

  function StatisticsSamples(table: map<string, StatKeySpec>, c: string, inv: Inventory, st: Option<Statistics>): seq<Sample> {
    if st.None? then [] else FlatMap(st.value.current, StatRow(table, c, inv.guid, LnnByDevId(inv.nodes)))
  }

  function ProtoSamples(c: string, id: string, st: Option<Statistics>): seq<Sample> {
    if st.None? then [] else FlatMap(st.value.proto, ProtoRow(c, id))
  }

  function PerformanceSamples(c: string, id: string, st: Option<Statistics>): seq<Sample> {
    if st.None? then []
    else FlatMap(st.value.drives, DriveStatRow(c, id)) + FlatMap(st.value.clients, ClientRow(c, id))
         + FlatMap(st.value.workloads, WorkloadRow(c, id))
  }

  function UsageSamples(table: map<string, StatKeySpec>, c: string, inv: Inventory, st: Option<Statistics>): seq<Sample> {
    StatisticsSamples(table, c, inv, st) + FlatMap(inv.quotas, QuotaRow(c, inv.guid))
    + CountSamples(c, inv.guid, inv.counts) + ProtoSamples(c, inv.guid, st)
  }

  function NodeSamples(c: string, inv: Inventory, drives: seq<seq<string>>): seq<Sample>
    requires |drives| == |inv.nodes|
  {
    NodeHealth(c, inv.guid, inv.nodes, drives) + FlatMap(inv.nodes, HardwareRow(c, inv.guid))
  }

  function ResourceSamples(c: string, inv: Inventory, events: seq<string>): seq<Sample> {
    SnapshotSamples(c, inv.guid, inv.snapshotUsed) + FlatMap(inv.syncPolicies, SyncRow(c, inv.guid))
    + FlatMap(events, EventRow(c, inv.guid, inv.events)) + DedupeSamples(c, inv.guid, inv.dedupe)
    + FlatMap(inv.licenses, LicenseRow(c, inv.guid)) + FlatMap(inv.storagePools, PoolRow(c, inv.guid))
  }

  function Samples(table: map<string, StatKeySpec>, c: string, inv: Inventory, st: Option<Statistics>, o: Order): seq<Sample>
    requires |o.drives| == |inv.nodes|
  {
    UsageSamples(table, c, inv, st) + NodeSamples(c, inv, o.drives)
    + ResourceSamples(c, inv, o.events) + PerformanceSamples(c, inv.guid, st)
  }

  // Visits the keys of a map in any order.
  method AppendByKey<T>(m: map<string, T>, f: string -> seq<Sample>) returns (out: seq<Sample>, ghost order: seq<string>)
    ensures Enumerates(order, m) && out == FlatMap(order, f)
  {
    out, order := [], [];
    var todo := m.Keys;
    while todo != {}
      invariant todo <= m.Keys && NoDuplicates(order)
      invariant forall k :: k in order <==> k in m.Keys - todo
      invariant out == FlatMap(order, f)
      decreases todo
    {
      var k :| k in todo;
      assert (order + [k])[..|order|] == order && k !in order;
      out, order := out + f(k), order + [k];
      todo := todo - {k};
    }
  }

  method NodeHealthOfOne(c: string, id: string, n: Node) returns (row: seq<Sample>, ghost order: seq<string>)
    ensures Enumerates(order, n.drivesByState) && row == NodeHealthRow(c, id, n, order)
  {
    var base := NodeLabels(c, id, Itoa(n.lnn));
    var drives;
    drives, order := AppendByKey(n.drivesByState, DriveRow(c, id, n));
    row := [Sample(NodeReadonly, base, B2F(n.readonly)), Sample(NodeSmartfail, base, B2F(n.smartfail))] + drives;
  }

  // `f` is the samples of one node, for an order of its drive states.
  method AppendHealth(c: string, id: string, nodes: seq<Node>, ghost f: (Node, seq<string>) -> seq<Sample>)
    returns (out: seq<Sample>, ghost orders: seq<seq<string>>)
    requires forall n, order {:trigger NodeHealthRow(c, id, n, order)} :: NodeHealthRow(c, id, n, order) == f(n, order)
    ensures IsDriveOrders(orders, nodes) && out == ByNode(f, nodes, orders)
  {
    out, orders := [], [];
    for i := 0 to |nodes|
      invariant IsDriveOrders(orders, nodes[..i]) && out == ByNode(f, nodes[..i], orders)
    {
      var row;
      ghost var order;
      row, order := NodeHealthOfOne(c, id, nodes[i]);
      assert nodes[..i + 1][..i] == nodes[..i] && (orders + [order])[..i] == orders;
      out, orders := out + row, orders + [order];
    }
    assert nodes[..|nodes|] == nodes;
  }

  method NodeHealthSamples(c: string, id: string, nodes: seq<Node>) returns (out: seq<Sample>, ghost orders: seq<seq<string>>)
    ensures IsDriveOrders(orders, nodes) && out == NodeHealth(c, id, nodes, orders)
  {
    out, orders := AppendHealth(c, id, nodes, HealthRow(c, id));
  }

  method BuildSamples(table: map<string, StatKeySpec>, c: string, inv: Option<Inventory>, st: Option<Statistics>)
    returns (samples: seq<Sample>, ghost o: Order)
    ensures inv.None? ==> samples == []
    ensures inv.Some? ==> IsOrder(o, inv.value) && samples == Samples(table, c, inv.value, st, o)
  {
    o := Order([], []);
    if inv.None? {
      return [], o;
    }
    var inventory := inv.value;
    var id := inventory.guid;
    var lnns: map<int, int> := map[];
    for i := 0 to |inventory.nodes|
      invariant lnns == LnnByDevId(inventory.nodes[..i])
    {
      assert inventory.nodes[..i + 1][..i] == inventory.nodes[..i];
      lnns := lnns[inventory.nodes[i].id := inventory.nodes[i].lnn];
    }
    assert inventory.nodes[..|inventory.nodes|] == inventory.nodes;

    var stat, proto, drives, clients, workloads := [], [], [], [], [];
    if st.Some? {
      stat := AppendRows(st.value.current, StatRow(table, c, id, lnns));
      proto := AppendRows(st.value.proto, ProtoRow(c, id));
      drives := AppendRows(st.value.drives, DriveStatRow(c, id));
      clients := AppendRows(st.value.clients, ClientRow(c, id));
      workloads := AppendRows(st.value.workloads, WorkloadRow(c, id));
    }
    var quotas := AppendRows(inventory.quotas, QuotaRow(c, id));
    var health;
    ghost var driveOrders;
    health, driveOrders := NodeHealthSamples(c, id, inventory.nodes);
    var hardware := AppendRows(inventory.nodes, HardwareRow(c, id));
    var sync := AppendRows(inventory.syncPolicies, SyncRow(c, id));
    var events;
    ghost var eventOrder;
    events, eventOrder := AppendByKey(inventory.events, EventRow(c, id, inventory.events));
    var licenses := AppendRows(inventory.licenses, LicenseRow(c, id));
    var pools := AppendRows(inventory.storagePools, PoolRow(c, id));
    o := Order(driveOrders, eventOrder);
    var usage := stat + quotas + CountSamples(c, id, inventory.counts) + proto;
    var resources := SnapshotSamples(c, id, inventory.snapshotUsed) + sync + events
      + DedupeSamples(c, id, inventory.dedupe) + licenses + pools;
    samples := usage + (health + hardware) + resources + (drives + clients + workloads);
  }
}
