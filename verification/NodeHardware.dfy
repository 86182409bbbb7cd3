/** What the samples of a node say about its drives and sensors (internal/powerscale/derivations.go). */
module NodeHardware {
  import opened Wrappers
  import opened Strings
  import opened Counting
  import opened Metrics
  import opened Inventory
  import opened Derivations
  import opened SampleSchema

  // ---------------------------------------------------------------- drives

  function Total(samples: seq<Sample>): real {
    if samples == [] then 0.0 else Total(samples[..|samples| - 1]) + samples[|samples| - 1].value
  }

  function PresentDrives(drives: seq<RawDrive>): nat {
    if drives == [] then 0
    else PresentDrives(drives[..|drives| - 1]) + if EmptyBay(drives[|drives| - 1]) then 0 else 1
  }

  /** The present drives are those that are not said to be absent. */
  lemma {:induction false} PresentDrivesAsWritten(drives: seq<RawDrive>)
    ensures PresentDrives(drives) == |set i | 0 <= i < |drives| && drives[i].present != Some(false)|
  {
    if drives != [] {
      var k := |drives| - 1;
      PresentDrivesAsWritten(drives[..k]);
      var before := set i | 0 <= i < k && drives[..k][i].present != Some(false);
      var all := set i | 0 <= i < |drives| && drives[i].present != Some(false);
      assert all == if drives[k].present != Some(false) then before + {k} else before;
    }
  }

  // One sample per drive state, in the order visited.
  lemma {:induction false} DriveSamplesOneByOne(c: string, id: string, n: Node, order: seq<string>)
    requires forall k :: 0 <= k < |order| ==> order[k] in n.drivesByState
    ensures |FlatMap(order, DriveRow(c, id, n))| == |order|
    ensures forall k :: 0 <= k < |order| ==> FlatMap(order, DriveRow(c, id, n))[k] == DriveRow(c, id, n)(order[k])[0]
  {
    if order != [] {
      DriveSamplesOneByOne(c, id, n, order[..|order| - 1]);
    }
  }

  lemma {:induction false} TotalOfCounts(d: seq<Sample>, order: seq<string>, states: seq<string>)
    requires |d| == |order|
    requires forall k :: 0 <= k < |order| ==> d[k].value == Count(states, order[k]) as real
    ensures Total(d) == SumCounts(order, states) as real
  {
    if order != [] {
      var k := |order| - 1;
      TotalOfCounts(d[..k], order[..k], states);
      SumCountsSnoc(order[..k], order[k], states);
      assert order == order[..k] + [order[k]];
    }
  }

  lemma {:induction false} SumCountsSnoc(order: seq<string>, s: string, states: seq<string>)
    ensures SumCounts(order + [s], states) == SumCounts(order, states) + Count(states, s)
  {
    if order == [] {
      assert ([] + [s])[1..] == [];
    } else {
      assert (order + [s])[1..] == order[1..] + [s];
      SumCountsSnoc(order[1..], s, states);
    }
  }

  lemma {:induction false} StatesArePresentDrives(drives: seq<RawDrive>)
    ensures |States(drives)| == PresentDrives(drives)
  {
    if drives != [] {
      StatesArePresentDrives(drives[..|drives| - 1]);
    }
  }

  lemma OnlyTheLatter(a: seq<Sample>, b: seq<Sample>, m: Metric)
    requires forall i :: 0 <= i < |a| ==> a[i].metric != m
    requires forall i :: 0 <= i < |b| ==> b[i].metric == m
    ensures OfMetric(a + b, m) == b
  {
    OfMetricUniform(a, m, false);
    OfMetricUniform(b, m, true);
    OfMetricConcat(a, b, m);
  }

  lemma {:induction false} FlatMapOfMetric(order: seq<string>, f: string -> seq<Sample>, m: Metric)
    requires forall k :: 0 <= k < |order| ==> forall j :: 0 <= j < |f(order[k])| ==> f(order[k])[j].metric == m
    ensures forall j :: 0 <= j < |FlatMap(order, f)| ==> FlatMap(order, f)[j].metric == m
  {
    if order != [] {
      FlatMapOfMetric(order[..|order| - 1], f, m);
    }
  }

  lemma DriveSamplesOfRow(c: string, id: string, n: Node, order: seq<string>)
    ensures OfMetric(NodeHealthRow(c, id, n, order), NodeDrives) == FlatMap(order, DriveRow(c, id, n))
  {
    var base := NodeLabels(c, id, Itoa(n.lnn));
    var state := [Sample(NodeReadonly, base, B2F(n.readonly)), Sample(NodeSmartfail, base, B2F(n.smartfail))];
    var f := DriveRow(c, id, n);
    FlatMapOfMetric(order, f, NodeDrives);
    OnlyTheLatter(state, FlatMap(order, f), NodeDrives);
  }

  // A node's drive samples, one for each state visited.
  ghost predicate OneSamplePerState(d: seq<Sample>, c: string, id: string, n: Node, order: seq<string>) {
    && |d| == |order|
    && forall i :: 0 <= i < |d| ==>
         && order[i] in n.drivesByState
         && d[i] == Sample(NodeDrives, DriveLabels(c, id, Itoa(n.lnn), order[i]), n.drivesByState[order[i]] as real)
  }

  lemma DriveSamplesOfNode(c: string, id: string, n: Node, order: seq<string>)
    requires forall k :: 0 <= k < |order| ==> order[k] in n.drivesByState
    ensures OneSamplePerState(OfMetric(NodeHealthRow(c, id, n, order), NodeDrives), c, id, n, order)
  {
    DriveSamplesOneByOne(c, id, n, order);
    DriveSamplesOfRow(c, id, n, order);
  }

  /** No drive is lost from payload to samples: whatever order the states are visited in, a node's
  drive samples are one for each state, and add up to the listed drives that are not empty bays. */
  lemma DrivesAreConserved(c: string, id: string, n: Node, order: seq<string>, drives: seq<RawDrive>)
    requires IsCountOf(n.drivesByState, States(drives))
    requires Enumerates(order, n.drivesByState)
    ensures var d := OfMetric(NodeHealthRow(c, id, n, order), NodeDrives);
            && Total(d) == PresentDrives(drives) as real
            && OneSamplePerState(d, c, id, n, order)
  {
    DriveSamplesOfNode(c, id, n, order);
    TotalOfCounts(OfMetric(NodeHealthRow(c, id, n, order), NodeDrives), order, States(drives));
    CountsSumToLength(order, States(drives));
    StatesArePresentDrives(drives);
  }

  lemma {:induction false} TotalOfBoth(a: seq<Sample>, b: seq<Sample>)
    ensures Total(a + b) == Total(a) + Total(b)
  {
    if b == [] {
      assert a + b == a;
    } else {
      assert (a + b)[..|a + b| - 1] == a + b[..|b| - 1];
      TotalOfBoth(a, b[..|b| - 1]);
    }
  }

  // The drive counts among some samples, added up.
  function DrivesIn(samples: seq<Sample>): real {
    Total(OfMetric(samples, NodeDrives))
  }

  lemma DrivesInBoth(a: seq<Sample>, b: seq<Sample>)
    ensures DrivesIn(a + b) == DrivesIn(a) + DrivesIn(b)
  {
    OfMetricConcat(a, b, NodeDrives);
    TotalOfBoth(OfMetric(a, NodeDrives), OfMetric(b, NodeDrives));
  }

  lemma NoDrivesIn(samples: seq<Sample>, p: Promise)
    requires AllKeep(samples, p) && !p.drives
    ensures DrivesIn(samples) == 0.0
  {
    forall i | 0 <= i < |samples| ensures samples[i].metric != NodeDrives {
      assert Keeps(samples[i], p);
    }
    OfMetricUniform(samples, NodeDrives, false);
  }

  function PresentInAll(payloads: seq<seq<RawDrive>>): nat {
    if payloads == [] then 0
    else PresentInAll(payloads[..|payloads| - 1]) + PresentDrives(payloads[|payloads| - 1])
  }

  // Each node's drives are counted from its part of the payload.
  ghost predicate CountedFrom(nodes: seq<Node>, payloads: seq<seq<RawDrive>>) {
    |payloads| == |nodes| && forall i :: 0 <= i < |nodes| ==> IsCountOf(nodes[i].drivesByState, States(payloads[i]))
  }

  lemma {:induction false} DrivesInNodeHealth(f: (Node, seq<string>) -> seq<Sample>, nodes: seq<Node>, orders: seq<seq<string>>,
                                              payloads: seq<seq<RawDrive>>)
    requires |orders| == |nodes| == |payloads|
    requires forall i :: 0 <= i < |nodes| ==> DrivesIn(f(nodes[i], orders[i])) == PresentDrives(payloads[i]) as real
    ensures DrivesIn(ByNode(f, nodes, orders)) == PresentInAll(payloads) as real
  {
    if nodes != [] {
      var k := |nodes| - 1;
      DrivesInNodeHealth(f, nodes[..k], orders[..k], payloads[..k]);
      DrivesInBoth(ByNode(f, nodes[..k], orders[..k]), f(nodes[k], orders[k]));
    }
  }

  lemma {:induction false} OrderOfEachNode(orders: seq<seq<string>>, nodes: seq<Node>, i: nat)
    requires IsDriveOrders(orders, nodes) && i < |nodes|
    ensures Enumerates(orders[i], nodes[i].drivesByState)
  {
    var k := |nodes| - 1;
    if i < k {
      OrderOfEachNode(orders[..k], nodes[..k], i);
    }
  }

  lemma DrivesInHealthOfAll(c: string, id: string, nodes: seq<Node>, orders: seq<seq<string>>, payloads: seq<seq<RawDrive>>)
    requires CountedFrom(nodes, payloads) && IsDriveOrders(orders, nodes)
    ensures DrivesIn(NodeHealth(c, id, nodes, orders)) == PresentInAll(payloads) as real
  {
    forall i | 0 <= i < |nodes| ensures DrivesIn(HealthRow(c, id)(nodes[i], orders[i])) == PresentDrives(payloads[i]) as real {
      OrderOfEachNode(orders, nodes, i);
      DrivesAreConserved(c, id, nodes[i], orders[i], payloads[i]);
    }
    DrivesInNodeHealth(HealthRow(c, id), nodes, orders, payloads);
  }

  /** Over the whole report no drive is lost or counted twice: the drive counts among all samples of a cluster,
  whatever else it reports, add up to the listed drives of its nodes that are not empty bays. */
  lemma ClusterDrivesAreConserved(table: map<string, StatKeySpec>, c: string, inv: Inventory, st: Option<Statistics>, o: Order,
                                  payloads: seq<seq<RawDrive>>)
    requires forall k :: k in table ==> WellScoped(table[k])
    requires IsOrder(o, inv) && CountedFrom(inv.nodes, payloads)
    ensures DrivesIn(Samples(table, c, inv, st, o)) == PresentInAll(payloads) as real
  {
    var usage, health := UsageSamples(table, c, inv, st), NodeHealth(c, inv.guid, inv.nodes, o.drives);
    var hardware := FlatMap(inv.nodes, HardwareRow(c, inv.guid));
    var resources, performance := ResourceSamples(c, inv, o.events), PerformanceSamples(c, inv.guid, st);
    NoDrivesElsewhere(table, c, inv, st, o.events);
    DrivesInHealthOfAll(c, inv.guid, inv.nodes, o.drives, payloads);
    DrivesAmong(usage, health, hardware, resources, performance);
  }

  // Only the node health builder counts drives.
  lemma NoDrivesElsewhere(table: map<string, StatKeySpec>, c: string, inv: Inventory, st: Option<Statistics>, order: seq<string>)
    requires forall k :: k in table ==> WellScoped(table[k])
    ensures DrivesIn(UsageSamples(table, c, inv, st)) == 0.0
    ensures DrivesIn(FlatMap(inv.nodes, HardwareRow(c, inv.guid))) == 0.0
    ensures DrivesIn(ResourceSamples(c, inv, order)) == 0.0
    ensures DrivesIn(PerformanceSamples(c, inv.guid, st)) == 0.0
  {
    var p := Promise(c, inv.guid, false, false);
    UsageKeeps(table, inv, st, p);
    HardwareKeeps(inv.nodes, p);
    ResourcesKeep(inv, order, p);
    PerformanceKeeps(inv, st, p);
    NoDrivesIn(UsageSamples(table, c, inv, st), p);
    NoDrivesIn(FlatMap(inv.nodes, HardwareRow(c, inv.guid)), p);
    NoDrivesIn(ResourceSamples(c, inv, order), p);
    NoDrivesIn(PerformanceSamples(c, inv.guid, st), p);
  }

  lemma DrivesAmong(usage: seq<Sample>, health: seq<Sample>, hardware: seq<Sample>, resources: seq<Sample>, performance: seq<Sample>)
    requires DrivesIn(usage) == DrivesIn(hardware) == DrivesIn(resources) == DrivesIn(performance) == 0.0
    ensures DrivesIn(usage + (health + hardware) + resources + performance) == DrivesIn(health)
  {
    DrivesInBoth(health, hardware);
    DrivesInBoth(usage, health + hardware);
    DrivesInBoth(usage + (health + hardware), resources);
    DrivesInBoth(usage + (health + hardware) + resources, performance);
  }

  // ---------------------------------------------------------------- sensors

  // The node's hardware samples include a reading: a power supply, a temperature or a fan.
  ghost predicate EmitsReading(c: string, id: string, n: Node) {
    exists i :: 0 <= i < |HardwareRow(c, id)(n)| && IsReading(HardwareRow(c, id)(n)[i].metric)
  }

  predicate IsReading(m: Metric) {
    m == NodePowerSupplies || m == NodeTemperature || m == NodeFanSpeed
  }

  lemma {:induction false} SensorSamplesOneByOne(m: Metric, c: string, id: string, n: Node, sensors: seq<Sensor>)
    ensures |FlatMap(sensors, SensorRow(m, c, id, n))| == |sensors|
    ensures forall i :: 0 <= i < |sensors| ==> FlatMap(sensors, SensorRow(m, c, id, n))[i].metric == m
  {
    if sensors != [] {
      SensorSamplesOneByOne(m, c, id, n, sensors[..|sensors| - 1]);
    }
  }

  /** A node counts as reporting sensors exactly when its samples include a reading. */
  lemma ReportsExactlyWhenEmitting(c: string, id: string, n: Node)
    ensures n.ReportsHardwareSensors() <==> EmitsReading(c, id, n)
  {
    SensorSamplesOneByOne(NodeTemperature, c, id, n, n.temperatures);
    SensorSamplesOneByOne(NodeFanSpeed, c, id, n, n.fans);
    var info, power := HardwareInfo(c, id, n), PowerSupplySamples(c, id, n);
    var temps := FlatMap(n.temperatures, SensorRow(NodeTemperature, c, id, n));
    var fans := FlatMap(n.fans, SensorRow(NodeFanSpeed, c, id, n));
    var row := HardwareRow(c, id)(n);
    assert row == info + power + temps + fans;
    if n.powerSupplies > 0 {
      assert row[|info|] == power[0] && IsReading(power[0].metric);
    }
    if n.temperatures != [] {
      assert row[|info + power|] == temps[0] && IsReading(temps[0].metric);
    }
    if n.fans != [] {
      assert row[|info + power + temps|] == fans[0] && IsReading(fans[0].metric);
    }
    if !n.ReportsHardwareSensors() {
      assert power == [] && temps == [] && fans == [];
      assert row == info;
    }
  }
}
