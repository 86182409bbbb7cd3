/** Exactly which samples a report can lose to deduplication (internal/powerscale/prometheus.go). */
module RivalReports {
  import opened Wrappers
  import opened Strings
  import opened Metrics
  import opened Inventory
  import opened Derivations
  import opened SampleSchema
  import opened SampleBlocks
  import opened FreeTexts
  import opened Exporters

  function Blank(id: string): Inventory {
    Inventory(id, [], [], Counts(0, 0, 0), 0.0, [], map[], DedupeSummary(0.0, 0.0), [], [])
  }

  function NoStatistics(): Statistics {
    Statistics([], [], [], [], [])
  }

  // The rows of the rival and of the sample itself stand one after the other, behind samples of other families.
  lemma LosesInRows<T>(all: seq<Sample>, pre: seq<Sample>, f: T -> seq<Sample>, rival: T, own: T, x: Sample, values: seq<string>)
    requires Within(all, pre, FlatMap([rival, own], f)) && NoneOf(pre, FamilyOf(x.metric))
    requires Yields(f(rival), x.metric, values) && Yields(f(own), x.metric, Values(x.labels))
    requires values != Values(x.labels) && JoinNul(values) == JoinNul(Values(x.labels))
    ensures Loses(all, x)
  {
    FlatMapOfTwo(f, rival, own);
    var post :| all == pre + FlatMap([rival, own], f) + post;
    YieldedIsRepeated(f(own), post, x);
    LostBehindRival(pre, f(rival), f(own) + post, x, values);
    Regrouped(pre, f(rival), f(own), post);
  }

  lemma Regrouped(a: seq<Sample>, b: seq<Sample>, d: seq<Sample>, e: seq<Sample>)
    ensures a + b + (d + e) == a + (b + d) + e
  {
  }

  lemma FlatMapOfTwo<T>(f: T -> seq<Sample>, a: T, b: T)
    ensures FlatMap([a, b], f) == f(a) + f(b)
  {
    var one: seq<T> := [a];
    assert [a, b][..1] == one && one[..0] == [];
    assert FlatMap(one, f) == [] + f(a) == f(a);
  }

  lemma YieldedIsRepeated(row: seq<Sample>, post: seq<Sample>, x: Sample)
    requires Yields(row, x.metric, Values(x.labels))
    ensures Repeated(row + post, x)
  {
    var s :| s in row && s.metric == x.metric;
    var i :| 0 <= i < |row| && row[i] == s;
    assert SameSeries((row + post)[i], x);
  }

  // ---------------------------------------------------------------- reports with the rows of one builder

  lemma BaseSamples(c: string, inv: Inventory, f: Family)
    requires f != ClusterWide
    ensures NoneOf(CountSamples(c, inv.guid, inv.counts), f)
    ensures NoneOf(SnapshotSamples(c, inv.guid, inv.snapshotUsed), f)
    ensures NoneOf(DedupeSamples(c, inv.guid, inv.dedupe), f)
  {
  }

  lemma NoUsage(table: map<string, StatKeySpec>, c: string, inv: Inventory, st: Option<Statistics>, f: Family)
    requires f != ClusterWide && inv.quotas == [] && (st.Some? ==> st.value.current == [] && st.value.proto == [])
    ensures NoneOf(UsageSamples(table, c, inv, st), f)
  {
    BaseSamples(c, inv, f);
    var counts := CountSamples(c, inv.guid, inv.counts);
    assert UsageSamples(table, c, inv, st) == [] + [] + counts + [] == counts;
  }

  lemma NoNodes(c: string, inv: Inventory)
    requires inv.nodes == []
    ensures NodeSamples(c, inv, []) == []
  {
  }

  lemma ResourcesWithoutLists(c: string, inv: Inventory)
    requires inv.syncPolicies == []
    ensures var base := SnapshotSamples(c, inv.guid, inv.snapshotUsed) + DedupeSamples(c, inv.guid, inv.dedupe);
            ResourceSamples(c, inv, []) ==
              base + FlatMap(inv.licenses, LicenseRow(c, inv.guid)) + FlatMap(inv.storagePools, PoolRow(c, inv.guid))
  {
    var snapshots := SnapshotSamples(c, inv.guid, inv.snapshotUsed);
    assert snapshots + [] + [] == snapshots;
  }

  // What stands before the resources where nodes and quotas are not reported, and before the performance
  // samples where nothing else is.
  lemma BlankBefore(table: map<string, StatKeySpec>, c: string, inv: Inventory, st: Option<Statistics>, f: Family)
    requires f != ClusterWide && inv.quotas == [] && inv.nodes == [] && inv.syncPolicies == []
    requires st.Some? ==> st.value.current == [] && st.value.proto == []
    ensures NoneOf(UsageSamples(table, c, inv, st) + NodeSamples(c, inv, []), f)
    ensures inv.licenses == [] && inv.storagePools == [] ==>
              NoneOf(UsageSamples(table, c, inv, st) + NodeSamples(c, inv, []) + ResourceSamples(c, inv, []), f)
  {
    NoUsage(table, c, inv, st, f);
    NoNodes(c, inv);
    BaseSamples(c, inv, f);
    ResourcesWithoutLists(c, inv);
    var usage, none := UsageSamples(table, c, inv, st), NodeSamples(c, inv, []);
    assert usage + none == usage;
    NoneOfBoth(SnapshotSamples(c, inv.guid, inv.snapshotUsed), DedupeSamples(c, inv.guid, inv.dedupe), f);
    if inv.licenses == [] && inv.storagePools == [] {
      var base := SnapshotSamples(c, inv.guid, inv.snapshotUsed) + DedupeSamples(c, inv.guid, inv.dedupe);
      assert ResourceSamples(c, inv, []) == base + [] + [] == base;
      NoneOfBoth(usage, base, f);
    }
  }

  // ---------------------------------------------------------------- where the rows stand

  lemma ProtocolsStand(table: map<string, StatKeySpec>, c: string, inv: Inventory, st: Statistics, o: Order)
    requires |o.drives| == |inv.nodes| && inv.quotas == [] && st.current == []
    ensures Within(Samples(table, c, inv, Some(st), o), CountSamples(c, inv.guid, inv.counts),
                   FlatMap(st.proto, ProtoRow(c, inv.guid)))
  {
    UsageStands(table, c, inv, Some(st), o);
    var none: seq<Sample> := [];
    assert none + none == none;
    FromNothing(CountSamples(c, inv.guid, inv.counts));
  }

  lemma HardwareStands(table: map<string, StatKeySpec>, c: string, inv: Inventory, o: Order)
    requires |o.drives| == |inv.nodes|
    ensures Within(Samples(table, c, inv, None, o),
                   UsageSamples(table, c, inv, None) + NodeHealth(c, inv.guid, inv.nodes, o.drives),
                   FlatMap(inv.nodes, HardwareRow(c, inv.guid)))
  {
    var health, hardware := NodeHealth(c, inv.guid, inv.nodes, o.drives), FlatMap(inv.nodes, HardwareRow(c, inv.guid));
    GroupsOfSamples(table, c, inv, None, o);
    WithinIs(health, hardware, []);
    WithinPart(Samples(table, c, inv, None, o), UsageSamples(table, c, inv, None), NodeSamples(c, inv, o.drives), health, hardware);
  }

  lemma ListsStand(table: map<string, StatKeySpec>, c: string, inv: Inventory)
    requires inv.nodes == [] && inv.syncPolicies == []
    ensures var before := UsageSamples(table, c, inv, None) + NodeSamples(c, inv, []);
            var base := SnapshotSamples(c, inv.guid, inv.snapshotUsed) + DedupeSamples(c, inv.guid, inv.dedupe);
            var licenses, pools := FlatMap(inv.licenses, LicenseRow(c, inv.guid)), FlatMap(inv.storagePools, PoolRow(c, inv.guid));
            && Within(Samples(table, c, inv, None, Order([], [])), before + base, licenses)
            && Within(Samples(table, c, inv, None, Order([], [])), before + (base + licenses), pools)
  {
    var o := Order([], []);
    var before := UsageSamples(table, c, inv, None) + NodeSamples(c, inv, []);
    var base := SnapshotSamples(c, inv.guid, inv.snapshotUsed) + DedupeSamples(c, inv.guid, inv.dedupe);
    var licenses, pools := FlatMap(inv.licenses, LicenseRow(c, inv.guid)), FlatMap(inv.storagePools, PoolRow(c, inv.guid));
    GroupsOfSamples(table, c, inv, None, o);
    ResourcesWithoutLists(c, inv);
    WithinIs(base, licenses, pools);
    WithinIs(base + licenses, pools, []);
    WithinPart(Samples(table, c, inv, None, o), before, ResourceSamples(c, inv, []), base, licenses);
    WithinPart(Samples(table, c, inv, None, o), before, ResourceSamples(c, inv, []), base + licenses, pools);
  }

  lemma ActivityStands(table: map<string, StatKeySpec>, c: string, inv: Inventory, st: Statistics)
    requires inv.nodes == []
    ensures var before := UsageSamples(table, c, inv, Some(st)) + NodeSamples(c, inv, []) + ResourceSamples(c, inv, []);
            var drives, clients := FlatMap(st.drives, DriveStatRow(c, inv.guid)), FlatMap(st.clients, ClientRow(c, inv.guid));
            && Within(Samples(table, c, inv, Some(st), Order([], [])), before + [], drives)
            && Within(Samples(table, c, inv, Some(st), Order([], [])), before + drives, clients)
            && Within(Samples(table, c, inv, Some(st), Order([], [])), before + (drives + clients),
                      FlatMap(st.workloads, WorkloadRow(c, inv.guid)))
  {
    var o := Order([], []);
    var before := UsageSamples(table, c, inv, Some(st)) + NodeSamples(c, inv, []) + ResourceSamples(c, inv, []);
    var drives, clients := FlatMap(st.drives, DriveStatRow(c, inv.guid)), FlatMap(st.clients, ClientRow(c, inv.guid));
    var workloads := FlatMap(st.workloads, WorkloadRow(c, inv.guid));
    var all, group := Samples(table, c, inv, Some(st), o), PerformanceSamples(c, inv.guid, Some(st));
    GroupsOfSamples(table, c, inv, Some(st), o);
    ThreeGroups(drives, clients, workloads);
    WithinPart(all, before, group, [], drives);
    WithinPart(all, before, group, drives, clients);
    WithinPart(all, before, group, drives + clients, workloads);
  }

  lemma ThreeGroups(a: seq<Sample>, b: seq<Sample>, d: seq<Sample>)
    ensures Within(a + b + d, [], a) && Within(a + b + d, a, b) && Within(a + b + d, a + b, d)
  {
    assert a + b + d == [] + a + (b + d);
    assert a + b + d == (a + b) + d + [];
  }

  // ---------------------------------------------------------------- family by family

  // Another tuple of the family, with the same joined form.
  ghost predicate Rivals(x: Sample, b: seq<string>, c: string, id: string) {
    && IsTuple(b, FamilyOf(x.metric), c, id) && IsTuple(Values(x.labels), FamilyOf(x.metric), c, id)
    && b != Values(x.labels) && JoinNul(b) == JoinNul(Values(x.labels))
    && (FamilyOf(x.metric) == PerStage ==> b[5] == Values(x.labels)[5])
  }

  // A report of the cluster in which the sample's series occurs and is lost.
  ghost predicate CanBeLost(table: map<string, StatKeySpec>, c: string, id: string, x: Sample) {
    exists inv: Inventory, st: Option<Statistics>, o: Order ::
      inv.guid == id && IsOrder(o, inv) && Loses(Samples(table, c, inv, st, o), x)
  }

  lemma LostIn(table: map<string, StatKeySpec>, c: string, inv: Inventory, st: Option<Statistics>, o: Order, x: Sample)
    requires IsOrder(o, inv) && Loses(Samples(table, c, inv, st, o), x)
    ensures CanBeLost(table, c, inv.guid, x)
  {
  }

  lemma QuotaCanBeLost(table: map<string, StatKeySpec>, c: string, id: string, x: Sample, b: seq<string>)
    requires FamilyOf(x.metric) == PerQuota && Rivals(x, b, c, id)
    ensures CanBeLost(table, c, id, x)
  {
    var a, o := Values(x.labels), Order([], []);
    var inv := Blank(id).(quotas := [QuotaOf(b), QuotaOf(a)]);
    UsageStands(table, c, inv, None, o);
    QuotaYields(b, x.metric, c, id);
    QuotaYields(a, x.metric, c, id);
    LosesInRows(Samples(table, c, inv, None, o), [], QuotaRow(c, id), QuotaOf(b), QuotaOf(a), x, b);
    LostIn(table, c, inv, None, o, x);
  }

  lemma ProtocolRowsLose(table: map<string, StatKeySpec>, c: string, id: string, rival: ProtoStat, own: ProtoStat,
                         x: Sample, b: seq<string>)
    requires FamilyOf(x.metric) != ClusterWide
    requires b != Values(x.labels) && JoinNul(b) == JoinNul(Values(x.labels))
    requires Yields(ProtoRow(c, id)(rival), x.metric, b) && Yields(ProtoRow(c, id)(own), x.metric, Values(x.labels))
    ensures CanBeLost(table, c, id, x)
  {
    var o, inv := Order([], []), Blank(id);
    var st := NoStatistics().(proto := [rival, own]);
    ProtocolsStand(table, c, inv, st, o);
    BaseSamples(c, inv, FamilyOf(x.metric));
    LosesInRows(Samples(table, c, inv, Some(st), o), CountSamples(c, id, inv.counts), ProtoRow(c, id), rival, own, x, b);
    LostIn(table, c, inv, Some(st), o, x);
  }

  lemma ProtocolCanBeLost(table: map<string, StatKeySpec>, c: string, id: string, x: Sample, b: seq<string>)
    requires FamilyOf(x.metric) == PerProtocol && Rivals(x, b, c, id)
    ensures CanBeLost(table, c, id, x)
  {
    var a := Values(x.labels);
    ProtocolYields(b, x.metric, c, id);
    ProtocolYields(a, x.metric, c, id);
    ProtocolRowsLose(table, c, id, ProtocolOf(b), ProtocolOf(a), x, b);
  }

  lemma StageCanBeLost(table: map<string, StatKeySpec>, c: string, id: string, x: Sample, b: seq<string>)
    requires FamilyOf(x.metric) == PerStage && Rivals(x, b, c, id)
    ensures CanBeLost(table, c, id, x)
  {
    StageRivalsYield(c, id, x, b);
    ProtocolRowsLose(table, c, id, ProtocolOf(b), ProtocolOf(Values(x.labels)), x, b);
  }

  lemma StageRivalsYield(c: string, id: string, x: Sample, b: seq<string>)
    requires FamilyOf(x.metric) == PerStage && Rivals(x, b, c, id)
    ensures Yields(ProtoRow(c, id)(ProtocolOf(b)), x.metric, b)
    ensures Yields(ProtoRow(c, id)(ProtocolOf(Values(x.labels))), x.metric, Values(x.labels))
  {
    assert x.metric == ProtocolLatencyStage;
    StageYields(b, c, id);
    StageYields(Values(x.labels), c, id);
  }

  lemma LicenseCanBeLost(table: map<string, StatKeySpec>, c: string, id: string, x: Sample, b: seq<string>)
    requires FamilyOf(x.metric) == PerLicenseStatus && Rivals(x, b, c, id)
    ensures CanBeLost(table, c, id, x)
  {
    var a, o := Values(x.labels), Order([], []);
    var inv := Blank(id).(licenses := [LicenseOf(b), LicenseOf(a)]);
    var before := UsageSamples(table, c, inv, None) + NodeSamples(c, inv, []);
    var base := SnapshotSamples(c, id, inv.snapshotUsed) + DedupeSamples(c, id, inv.dedupe);
    assert x.metric == LicenseActive;
    ListsStand(table, c, inv);
    BaseBefore(table, c, inv, FamilyOf(x.metric));
    LicenseYields(b, c, id);
    LicenseYields(a, c, id);
    LosesInRows(Samples(table, c, inv, None, o), before + base, LicenseRow(c, id), LicenseOf(b), LicenseOf(a), x, b);
    LostIn(table, c, inv, None, o, x);
  }

  lemma PoolCanBeLost(table: map<string, StatKeySpec>, c: string, id: string, x: Sample, b: seq<string>)
    requires FamilyOf(x.metric) == PerPool && Rivals(x, b, c, id)
    ensures CanBeLost(table, c, id, x)
  {
    var a, o := Values(x.labels), Order([], []);
    var inv := Blank(id).(storagePools := [PoolOf(b), PoolOf(a)]);
    var before := UsageSamples(table, c, inv, None) + NodeSamples(c, inv, []);
    var base := SnapshotSamples(c, id, inv.snapshotUsed) + DedupeSamples(c, id, inv.dedupe);
    var licenses := FlatMap(inv.licenses, LicenseRow(c, id));
    ListsStand(table, c, inv);
    BaseBefore(table, c, inv, FamilyOf(x.metric));
    assert before + (base + licenses) == before + base;
    PoolYields(b, x.metric, c, id);
    PoolYields(a, x.metric, c, id);
    LosesInRows(Samples(table, c, inv, None, o), before + (base + licenses), PoolRow(c, id), PoolOf(b), PoolOf(a), x, b);
    LostIn(table, c, inv, None, o, x);
  }

  lemma BaseBefore(table: map<string, StatKeySpec>, c: string, inv: Inventory, f: Family)
    requires f != ClusterWide && inv.quotas == [] && inv.nodes == [] && inv.syncPolicies == []
    ensures var base := SnapshotSamples(c, inv.guid, inv.snapshotUsed) + DedupeSamples(c, inv.guid, inv.dedupe);
            NoneOf(UsageSamples(table, c, inv, None) + NodeSamples(c, inv, []) + base, f)
  {
    BlankBefore(table, c, inv, None, f);
    BaseSamples(c, inv, f);
    var base := SnapshotSamples(c, inv.guid, inv.snapshotUsed) + DedupeSamples(c, inv.guid, inv.dedupe);
    NoneOfBoth(SnapshotSamples(c, inv.guid, inv.snapshotUsed), DedupeSamples(c, inv.guid, inv.dedupe), f);
    NoneOfBoth(UsageSamples(table, c, inv, None) + NodeSamples(c, inv, []), base, f);
  }

  lemma DriveCanBeLost(table: map<string, StatKeySpec>, c: string, id: string, x: Sample, b: seq<string>)
    requires FamilyOf(x.metric) == PerDrive && Rivals(x, b, c, id)
    ensures CanBeLost(table, c, id, x)
  {
    var a, o, inv := Values(x.labels), Order([], []), Blank(id);
    var st := NoStatistics().(drives := [DriveOf(b), DriveOf(a)]);
    var before := UsageSamples(table, c, inv, Some(st)) + NodeSamples(c, inv, []) + ResourceSamples(c, inv, []);
    ActivityStands(table, c, inv, st);
    BlankBefore(table, c, inv, Some(st), FamilyOf(x.metric));
    assert before + [] == before;
    DriveYields(b, x.metric, c, id);
    DriveYields(a, x.metric, c, id);
    LosesInRows(Samples(table, c, inv, Some(st), o), before + [], DriveStatRow(c, id), DriveOf(b), DriveOf(a), x, b);
    LostIn(table, c, inv, Some(st), o, x);
  }

  lemma ClientCanBeLost(table: map<string, StatKeySpec>, c: string, id: string, x: Sample, b: seq<string>)
    requires FamilyOf(x.metric) == PerClient && Rivals(x, b, c, id)
    ensures CanBeLost(table, c, id, x)
  {
    var a, o, inv := Values(x.labels), Order([], []), Blank(id);
    var st := NoStatistics().(clients := [ClientOf(b), ClientOf(a)]);
    var before := UsageSamples(table, c, inv, Some(st)) + NodeSamples(c, inv, []) + ResourceSamples(c, inv, []);
    var drives := FlatMap(st.drives, DriveStatRow(c, id));
    ActivityStands(table, c, inv, st);
    BlankBefore(table, c, inv, Some(st), FamilyOf(x.metric));
    assert before + drives == before;
    ClientYields(b, x.metric, c, id);
    ClientYields(a, x.metric, c, id);
    LosesInRows(Samples(table, c, inv, Some(st), o), before + drives, ClientRow(c, id), ClientOf(b), ClientOf(a), x, b);
    LostIn(table, c, inv, Some(st), o, x);
  }

  lemma WorkloadCanBeLost(table: map<string, StatKeySpec>, c: string, id: string, x: Sample, b: seq<string>)
    requires FamilyOf(x.metric) == PerWorkload && Rivals(x, b, c, id)
    ensures CanBeLost(table, c, id, x)
  {
    var a, o, inv := Values(x.labels), Order([], []), Blank(id);
    var st := NoStatistics().(workloads := [WorkloadOf(b), WorkloadOf(a)]);
    var before := UsageSamples(table, c, inv, Some(st)) + NodeSamples(c, inv, []) + ResourceSamples(c, inv, []);
    var drives, clients := FlatMap(st.drives, DriveStatRow(c, id)), FlatMap(st.clients, ClientRow(c, id));
    ActivityStands(table, c, inv, st);
    BlankBefore(table, c, inv, Some(st), FamilyOf(x.metric));
    assert before + (drives + clients) == before;
    WorkloadYields(b, x.metric, c, id);
    WorkloadYields(a, x.metric, c, id);
    LosesInRows(Samples(table, c, inv, Some(st), o), before + (drives + clients), WorkloadRow(c, id),
                WorkloadOf(b), WorkloadOf(a), x, b);
    LostIn(table, c, inv, Some(st), o, x);
  }

  // The health samples of two nodes without drives are of those nodes only.
  lemma HealthOfBareNodes(c: string, id: string, a: Node, b: Node)
    ensures forall s :: s in NodeHealth(c, id, [a, b], [[], []]) ==> FamilyOf(s.metric) == PerNode
  {
    var none: seq<string> := [];
    ByNodeOfTwo(HealthRow(c, id), a, b, none);
    HealthOfBareNode(c, id, a);
    HealthOfBareNode(c, id, b);
  }

  lemma HealthOfBareNode(c: string, id: string, n: Node)
    ensures forall s :: s in HealthRow(c, id)(n, []) ==> FamilyOf(s.metric) == PerNode
  {
  }

  lemma ByNodeOfTwo(f: (Node, seq<string>) -> seq<Sample>, a: Node, b: Node, order: seq<string>)
    ensures ByNode(f, [a, b], [order, order]) == f(a, order) + f(b, order)
  {
    var nodes, orders, node, one := [a, b], [order, order], [a], [order];
    assert nodes[..1] == node && orders[..1] == one && node[..0] == [] && one[..0] == [];
    assert ByNode(f, node, one) == [] + f(a, order);
  }

  lemma HardwareRowsLose(table: map<string, StatKeySpec>, c: string, id: string, rival: Node, own: Node, x: Sample, b: seq<string>)
    requires FamilyOf(x.metric) == PerHardware
    requires rival.drivesByState == map[] && own.drivesByState == map[]
    requires b != Values(x.labels) && JoinNul(b) == JoinNul(Values(x.labels))
    requires Yields(HardwareRow(c, id)(rival), x.metric, b) && Yields(HardwareRow(c, id)(own), x.metric, Values(x.labels))
    ensures CanBeLost(table, c, id, x)
  {
    var inv, o := Blank(id).(nodes := [rival, own]), Order([[], []], []);
    var before := UsageSamples(table, c, inv, None) + NodeHealth(c, id, inv.nodes, o.drives);
    HardwareStands(table, c, inv, o);
    NoHardwareBefore(table, c, inv, rival, own);
    LosesInRows(Samples(table, c, inv, None, o), before, HardwareRow(c, id), rival, own, x, b);
    BareOrders(rival, own);
    LostIn(table, c, inv, None, o, x);
  }

  lemma NoHardwareBefore(table: map<string, StatKeySpec>, c: string, inv: Inventory, a: Node, b: Node)
    requires inv.quotas == []
    ensures NoneOf(UsageSamples(table, c, inv, None) + NodeHealth(c, inv.guid, [a, b], [[], []]), PerHardware)
  {
    var usage, health := UsageSamples(table, c, inv, None), NodeHealth(c, inv.guid, [a, b], [[], []]);
    NoUsage(table, c, inv, None, PerHardware);
    HealthOfBareNodes(c, inv.guid, a, b);
    NoneOfAll(health);
    NoneOfBoth(usage, health, PerHardware);
  }

  lemma NoneOfAll(samples: seq<Sample>)
    requires forall s :: s in samples ==> FamilyOf(s.metric) == PerNode
    ensures NoneOf(samples, PerHardware)
  {
  }

  lemma HardwareCanBeLost(table: map<string, StatKeySpec>, c: string, id: string, x: Sample, b: seq<string>)
    requires FamilyOf(x.metric) == PerHardware && Rivals(x, b, c, id)
    ensures CanBeLost(table, c, id, x)
  {
    var a := Values(x.labels);
    assert x.metric == NodeHardwareInfo;
    HardwareYields(b, c, id);
    HardwareYields(a, c, id);
    HardwareRowsLose(table, c, id, HardwareOfTuple(b), HardwareOfTuple(a), x, b);
  }

  lemma BareOrders(a: Node, b: Node)
    requires a.drivesByState == map[] && b.drivesByState == map[]
    ensures IsDriveOrders([[], []], [a, b])
  {
    var none: seq<string> := [];
    assert Enumerates(none, a.drivesByState) && Enumerates(none, b.drivesByState);
    assert [a, b][..1] == [a] && [none, none][..1] == [none];
    assert [a][..0] == [] && [none][..0] == [];
    assert IsDriveOrders([none], [a]);
  }

  // ---------------------------------------------------------------- exactly

  lemma UnsafeCanBeLost(table: map<string, StatKeySpec>, c: string, id: string, x: Sample)
    requires Keeps(x, Built(c, id)) && NoNul(c) && NoNul(id) && !Safe(x)
    ensures CanBeLost(table, c, id, x)
  {
    var b := RivalTuple(x, c, id);
    match FamilyOf(x.metric)
    case PerQuota => QuotaCanBeLost(table, c, id, x, b);
    case PerProtocol => ProtocolCanBeLost(table, c, id, x, b);
    case PerStage => StageCanBeLost(table, c, id, x, b);
    case PerHardware => HardwareCanBeLost(table, c, id, x, b);
    case PerLicenseStatus => LicenseCanBeLost(table, c, id, x, b);
    case PerPool => PoolCanBeLost(table, c, id, x, b);
    case PerDrive => DriveCanBeLost(table, c, id, x, b);
    case PerClient => ClientCanBeLost(table, c, id, x, b);
    case PerWorkload => WorkloadCanBeLost(table, c, id, x, b);
    case _ => assert false;
  }

  /** Take any sample built from a report of a cluster whose name and id hold no NUL. Its series is offered from every
  report of the cluster in which it occurs, if its family has at most one free text or its own texts hold no NUL;
  and otherwise there is a report, of two rows of one builder, in which it occurs and is lost. */
  lemma LostExactlyWhereUnsafe(table: map<string, StatKeySpec>, c: string, inv: Inventory, st: Option<Statistics>, o: Order,
                               x: Sample)
    requires forall k :: k in table ==> WellScoped(table[k])
    requires IsOrder(o, inv) && x in Samples(table, c, inv, st, o)
    requires NoNul(c) && NoNul(inv.guid)
    ensures CanBeLost(table, c, inv.guid, x) <==> !Safe(x)
  {
    var p := Built(c, inv.guid);
    AllSamplesKeep(table, inv, st, o, p);
    var i :| 0 <= i < |Samples(table, c, inv, st, o)| && Samples(table, c, inv, st, o)[i] == x;
    assert Keeps(x, p);
    if !Safe(x) {
      UnsafeCanBeLost(table, c, inv.guid, x);
    } else if CanBeLost(table, c, inv.guid, x) {
      var other: Inventory, st': Option<Statistics>, o': Order :|
        other.guid == inv.guid && IsOrder(o', other) && Loses(Samples(table, c, other, st', o'), x);
      AllSamplesKeep(table, other, st', o', p);
      SafeIsNotLost(Samples(table, c, other, st', o'), x, c, inv.guid);
    }
  }
}
