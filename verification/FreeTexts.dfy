/** Which samples deduplication can lose: the texts a cluster reports freely, and the builders that put several of them
side by side (internal/powerscale/derivations.go, internal/powerscale/prometheus.go). */
module FreeTexts {
  import opened Strings
  import opened Metrics
  import opened Inventory
  import opened Derivations
  import opened SampleSchema
  import opened SampleBlocks
  import opened Signatures
  import opened Exporters

  // ---------------------------------------------------------------- where free texts stand

  function FreeFrom(f: Family): nat {
    if HasNode(f) then 3 else 2
  }

  function FreeTo(f: Family): nat {
    FreeFrom(f) + FreeTexts(f)
  }

  /** A sample is safe if its family has at most one free text, or none of its label values holds a NUL. */
  predicate Safe(x: Sample) {
    FreeTexts(FamilyOf(x.metric)) <= 1 || NulFree(Values(x.labels))
  }

  // What every built sample of a cluster keeps.
  function Built(c: string, id: string): Promise {
    Promise(c, id, false, true)
  }

  lemma FamilyShape(f: Family)
    ensures 2 + |OwnLabelNames(f)| == FreeTo(f) + if f == PerStage then 1 else 0
    ensures f == PerStage ==> FreeTo(f) == 5
  {
  }

  lemma FixedHoldNoNul(x: Sample, c: string, id: string, k: nat)
    requires Keeps(x, Built(c, id)) && NoNul(c) && NoNul(id)
    requires k < |Values(x.labels)| && !(FreeFrom(FamilyOf(x.metric)) <= k < FreeTo(FamilyOf(x.metric)))
    ensures NoNul(Values(x.labels)[k])
  {
    var f, values := FamilyOf(x.metric), Values(x.labels);
    FamilyShape(f);
    assert |values| == |Names(x.labels)| == 2 + |OwnLabelNames(f)|;
    if k == 2 && HasNode(f) {
      var n :| values[2] == Itoa(n);
      ItoaHasNoNul(n);
    } else if k > 2 {
      assert f == PerStage && k == 5;
      StagesHaveNoNul();
    }
  }

  lemma OneFreeTextTells(x: Sample, y: Sample, c: string, id: string)
    requires Keeps(x, Built(c, id)) && Keeps(y, Built(c, id)) && NoNul(c) && NoNul(id)
    requires FreeTexts(FamilyOf(x.metric)) <= 1 && SignatureOf(x) == SignatureOf(y)
    ensures SameSeries(x, y)
  {
    var f, a, b := FamilyOf(x.metric), Values(x.labels), Values(y.labels);
    FamilyShape(f);
    assert |a| == |Names(x.labels)| == |Names(y.labels)| == |b| == FreeTo(f);
    forall k | 0 <= k < |a| - 1 ensures NoNul(a[k]) && NoNul(b[k]) {
      FixedHoldNoNul(x, c, id, k);
      FixedHoldNoNul(y, c, id, k);
    }
    FreeLastTellsTuples(a, b);
  }

  lemma SafeTells(x: Sample, y: Sample, c: string, id: string)
    requires Keeps(x, Built(c, id)) && Keeps(y, Built(c, id)) && NoNul(c) && NoNul(id)
    requires Safe(x) && SignatureOf(x) == SignatureOf(y)
    ensures SameSeries(x, y)
  {
    if FreeTexts(FamilyOf(x.metric)) <= 1 {
      OneFreeTextTells(x, y, c, id);
    } else {
      assert Fits(x) && Fits(y) && Clean(x);
      SignatureTellsSeries(y, x);
    }
  }

  // A safe series is kept wherever it occurs.
  lemma SafeIsNotLost(samples: seq<Sample>, x: Sample, c: string, id: string)
    requires AllKeep(samples, Built(c, id)) && Keeps(x, Built(c, id)) && NoNul(c) && NoNul(id) && Safe(x)
    ensures !Loses(samples, x)
  {
    if Repeated(samples, x) {
      var i :| 0 <= i < |samples| && SameSeries(samples[i], x);
      var same := OfMetric(samples, x.metric);
      InOfMetric(samples, x.metric, samples[i]);
      KeptCoversSignatures(same);
      var j :| 0 <= j < |Kept(same)| && SignatureOf(Kept(same)[j]) == SignatureOf(samples[i]);
      var k := Kept(same)[j];
      assert k in Kept(same);
      InOfMetric(samples, x.metric, k);
      var n :| 0 <= n < |samples| && samples[n] == k;
      assert Keeps(k, Built(c, id));
      SafeTells(x, k, c, id);
    }
  }

  // ---------------------------------------------------------------- a rival tuple

  // With a NUL in one of several free texts, there is another tuple with the same fixed parts and joined form.
  lemma RivalTuple(x: Sample, c: string, id: string) returns (b: seq<string>)
    requires Keeps(x, Built(c, id)) && NoNul(c) && NoNul(id) && !Safe(x)
    ensures IsTuple(b, FamilyOf(x.metric), c, id) && IsTuple(Values(x.labels), FamilyOf(x.metric), c, id)
    ensures b != Values(x.labels) && JoinNul(b) == JoinNul(Values(x.labels))
    ensures FamilyOf(x.metric) == PerStage ==> b[5] == Values(x.labels)[5]
  {
    var f, a := FamilyOf(x.metric), Values(x.labels);
    var i := NulStandsFree(x, c, id);
    b := AnotherTuple(a, FreeFrom(f), FreeTo(f));
    FixedPartsStay(a, b, f);
  }

  lemma NulStandsFree(x: Sample, c: string, id: string) returns (i: nat)
    requires Keeps(x, Built(c, id)) && NoNul(c) && NoNul(id) && !Safe(x)
    ensures var f, a := FamilyOf(x.metric), Values(x.labels);
            && FreeFrom(f) <= i < FreeTo(f) <= |a| && FreeFrom(f) + 2 <= FreeTo(f) && !NoNul(a[i])
            && |a| == 2 + |OwnLabelNames(f)| && IsTuple(a, f, c, id)
  {
    var f, a := FamilyOf(x.metric), Values(x.labels);
    FamilyShape(f);
    assert |a| == |Names(x.labels)| == 2 + |OwnLabelNames(f)|;
    i :| 0 <= i < |a| && !NoNul(a[i]);
    if !(FreeFrom(f) <= i < FreeTo(f)) {
      FixedHoldNoNul(x, c, id, i);
    }
    assert a[i] != "";
  }

  lemma FixedPartsStay(a: seq<string>, b: seq<string>, f: Family)
    requires |a| == |b| == 2 + |OwnLabelNames(f)| && FreeTo(f) <= |a| && FixedParts(a, f)
    requires b[..FreeFrom(f)] == a[..FreeFrom(f)] && b[FreeTo(f)..] == a[FreeTo(f)..]
    ensures FixedParts(b, f) && b[0] == a[0] && b[1] == a[1] && (f == PerStage ==> b[5] == a[5])
  {
    FamilyShape(f);
    assert forall k :: 0 <= k < FreeFrom(f) ==> b[k] == b[..FreeFrom(f)][k] == a[..FreeFrom(f)][k] == a[k];
    if f == PerStage {
      assert b[5] == b[5..][0] && a[5] == a[5..][0];
    }
  }

  // Label values a builder of the family can emit: the free texts are not all empty.
  ghost predicate IsTuple(v: seq<string>, f: Family, c: string, id: string) {
    && |v| == 2 + |OwnLabelNames(f)| && v[0] == c && v[1] == id && FixedParts(v, f)
    && FreeTo(f) <= |v| && exists i :: FreeFrom(f) <= i < FreeTo(f) && v[i] != ""
  }

  // ---------------------------------------------------------------- rows with given label values

  lemma {:induction false} InFlatMap<T>(rows: seq<T>, f: T -> seq<Sample>, s: Sample)
    ensures s in FlatMap(rows, f) <==> exists i :: 0 <= i < |rows| && s in f(rows[i])
  {
    if rows != [] {
      var k := |rows| - 1;
      InFlatMap(rows[..k], f, s);
      assert forall i :: 0 <= i < k ==> rows[..k][i] == rows[i];
    }
  }

  lemma SharedYields(labels: seq<Label>, values: seq<(Metric, real)>, m: Metric, i: nat)
    requires i < |values| && values[i].0 == m
    ensures Yields(Shared(labels, values), m, Values(labels))
  {
    assert Shared(labels, values)[i].metric == m;
  }

  function QuotaOf(v: seq<string>): Quota
    requires |v| == 5
  {
    Quota(v[2], v[3], v[4], 1.0, 1.0, 1.0, 1.0, 1.0, 1.0, 1.0)
  }

  lemma QuotaHasAll(q: Quota, m: Metric) returns (i: nat)
    requires FamilyOf(m) == PerQuota
    requires q.physical > 0.0 && q.reductionRatio > 0.0 && q.hard > 0.0 && q.soft > 0.0 && q.advisory > 0.0
    ensures i < |QuotaValues(q)| && QuotaValues(q)[i].0 == m
  {
    assert IsPerQuota(m);
    i := if m.QuotaUsage? then 0 else if m.QuotaApplicationUsage? then 1 else if m.QuotaPhysicalUsage? then 2
         else if m.QuotaReductionRatio? then 3 else if m.QuotaHardThreshold? then 4 else if m.QuotaSoftThreshold? then 5 else 6;
  }

  lemma QuotaYields(v: seq<string>, m: Metric, c: string, id: string)
    requires FamilyOf(m) == PerQuota && IsTuple(v, PerQuota, c, id)
    ensures Yields(QuotaRow(c, id)(QuotaOf(v)), m, v)
  {
    var q := QuotaOf(v);
    var i := QuotaHasAll(q, m);
    SharedYields(QuotaLabels(c, id, q.id, q.path, q.kind), QuotaValues(q), m, i);
    assert Values(QuotaLabels(c, id, q.id, q.path, q.kind)) == v;
  }

  function PoolOf(v: seq<string>): StoragePool
    requires |v| == 4
  {
    StoragePool(v[2], v[3], 1.0, 1.0, 1.0, 1.0, 1.0, 1.0, 1.0, 1.0, 1.0)
  }

  lemma PoolHasAll(p: StoragePool, m: Metric) returns (i: nat)
    requires FamilyOf(m) == PerPool
    ensures i < |PoolValues(p)| && PoolValues(p)[i].0 == m
  {
    assert IsPerPool(m);
    i := if m.PoolTotal? then 0 else if m.PoolUsed? then 1 else if m.PoolAvailable? then 2
         else if m.PoolSsdTotal? then 3 else if m.PoolSsdUsed? then 4 else if m.PoolSsdAvailable? then 5
         else if m.PoolHddTotal? then 6 else if m.PoolHddUsed? then 7 else 8;
  }

  lemma PoolYields(v: seq<string>, m: Metric, c: string, id: string)
    requires FamilyOf(m) == PerPool && IsTuple(v, PerPool, c, id)
    ensures Yields(PoolRow(c, id)(PoolOf(v)), m, v)
  {
    var p := PoolOf(v);
    var i := PoolHasAll(p, m);
    SharedYields(StoragePoolLabels(c, id, p.name, p.kind), PoolValues(p), m, i);
    assert Values(StoragePoolLabels(c, id, p.name, p.kind)) == v;
  }

  function LicenseOf(v: seq<string>): License
    requires |v| == 4
  {
    License(v[2], v[3], 0)
  }

  lemma LicenseYields(v: seq<string>, c: string, id: string)
    requires IsTuple(v, PerLicenseStatus, c, id)
    ensures Yields(LicenseRow(c, id)(LicenseOf(v)), LicenseActive, v)
  {
    var l := LicenseOf(v);
    LicenseTuple(v, c, id);
    var row := LicenseRow(c, id)(l);
    SecondYields(row, LicenseActive, v);
  }

  lemma LicenseTuple(v: seq<string>, c: string, id: string)
    requires IsTuple(v, PerLicenseStatus, c, id)
    ensures Values(LicenseActiveLabels(c, id, v[2], v[3])) == v
  {
  }

  lemma SecondYields(row: seq<Sample>, m: Metric, v: seq<string>)
    requires |row| == 2 && row[0].metric != m && row[1].metric == m && Values(row[1].labels) == v
    ensures Yields(row, m, v)
  {
    assert row[1] in row;
  }

  lemma OneYields(s: Sample)
    ensures Yields([s], s.metric, Values(s.labels))
  {
    assert s in [s];
  }

  // The number a node label was written from.
  ghost function NodeOf(v: seq<string>): (n: int)
    requires |v| > 2 && IsNumeral(v[2])
    ensures Itoa(n) == v[2]
  {
    var n :| v[2] == Itoa(n);
    n
  }

  ghost function HardwareOfTuple(v: seq<string>): Node
    requires |v| == 6 && IsNumeral(v[2])
  {
    Node(0, NodeOf(v), false, false, map[], 0, 0, [], [], v[3], v[4], v[5])
  }

  lemma HardwareTuple(v: seq<string>, c: string, id: string)
    requires IsTuple(v, PerHardware, c, id)
    ensures Values(HardwareInfoLabels(c, id, Itoa(NodeOf(v)), v[3], v[4], v[5])) == v
    ensures v[3] != "" || v[4] != "" || v[5] != ""
  {
  }

  lemma HardwareYields(v: seq<string>, c: string, id: string)
    requires IsTuple(v, PerHardware, c, id)
    ensures Yields(HardwareRow(c, id)(HardwareOfTuple(v)), NodeHardwareInfo, v)
  {
    var n := HardwareOfTuple(v);
    HardwareTuple(v, c, id);
    HardwareOfBareNode(c, id, n);
    OneYields(Sample(NodeHardwareInfo, HardwareInfoLabels(c, id, Itoa(n.lnn), n.product, n.series, n.hwgen), 1.0));
  }

  lemma HardwareOfBareNode(c: string, id: string, n: Node)
    requires n.powerSupplies == 0 && n.temperatures == [] && n.fans == []
    ensures HardwareOf(c, id, n) == HardwareInfo(c, id, n)
  {
    var info := HardwareInfo(c, id, n);
    assert HardwareOf(c, id, n) == info + [] + [] + [];
  }

  ghost function DriveOf(v: seq<string>): DriveStat
    requires |v| == 5 && IsNumeral(v[2])
  {
    DriveStat(NodeOf(v), v[3], v[4], 1.0, 1.0)
  }

  lemma DriveTuple(v: seq<string>, c: string, id: string)
    requires IsTuple(v, PerDrive, c, id)
    ensures Values(DriveStatLabels(c, id, Itoa(NodeOf(v)), v[3], v[4])) == v
  {
  }

  lemma DriveYields(v: seq<string>, m: Metric, c: string, id: string)
    requires FamilyOf(m) == PerDrive && IsTuple(v, PerDrive, c, id)
    ensures Yields(DriveStatRow(c, id)(DriveOf(v)), m, v)
  {
    assert IsPerDrive(m);
    var d := DriveOf(v);
    DriveTuple(v, c, id);
    SharedYields(DriveStatLabels(c, id, Itoa(d.node), d.bay, d.kind),
                 [(DriveOperations, d.opsPerSec), (DriveBusy, d.busyPercent)], m, if m == DriveOperations then 0 else 1);
  }

  ghost function ClientOf(v: seq<string>): ClientStat
    requires |v| == 5 && IsNumeral(v[2])
  {
    ClientStat(NodeOf(v), v[3], v[4], 1.0, 1.0, 1.0)
  }

  lemma ClientYields(v: seq<string>, m: Metric, c: string, id: string)
    requires FamilyOf(m) == PerClient && IsTuple(v, PerClient, c, id)
    ensures Yields(ClientRow(c, id)(ClientOf(v)), m, v)
  {
    assert IsPerClient(m);
    var s := ClientOf(v);
    SharedYields(ClientLabels(c, id, Itoa(s.node), s.protocol, s.protocolClass), ClientValues(s), m,
                 if m == ClientOperations then 0 else if m == ClientIn then 1 else 2);
    assert Values(ClientLabels(c, id, Itoa(s.node), s.protocol, s.protocolClass)) == v;
  }

  ghost function WorkloadOf(v: seq<string>): Workload
    requires |v| == 8 && IsNumeral(v[2])
  {
    Workload(NodeOf(v), v[3], v[4], v[5], v[6], v[7], 1.0, 1.0, 1.0, 1.0)
  }

  lemma WorkloadHasAll(w: Workload, m: Metric) returns (i: nat)
    requires FamilyOf(m) == PerWorkload
    ensures i < |WorkloadValues(w)| && WorkloadValues(w)[i].0 == m
  {
    assert IsPerWorkload(m);
    i := if m.WorkloadOperations? then 0 else if m.WorkloadIn? then 1 else if m.WorkloadOut? then 2 else 3;
  }

  lemma WorkloadTuple(v: seq<string>, c: string, id: string)
    requires IsTuple(v, PerWorkload, c, id)
    ensures Values(WorkloadLabels(c, id, Itoa(NodeOf(v)), v[3], v[4], v[5], v[6], v[7])) == v
  {
  }

  lemma WorkloadYields(v: seq<string>, m: Metric, c: string, id: string)
    requires FamilyOf(m) == PerWorkload && IsTuple(v, PerWorkload, c, id)
    ensures Yields(WorkloadRow(c, id)(WorkloadOf(v)), m, v)
  {
    var w := WorkloadOf(v);
    var i := WorkloadHasAll(w, m);
    WorkloadTuple(v, c, id);
    SharedYields(WorkloadLabels(c, id, Itoa(w.node), w.zone, w.protocol, w.username, w.systemName, w.jobType),
                 WorkloadValues(w), m, i);
  }

  // One stage at most: the one of the tuple, if it has one.
  ghost function ProtocolOf(v: seq<string>): ProtoStat
    requires |v| >= 5 && IsNumeral(v[2])
  {
    ProtoStat(NodeOf(v), v[3], v[4], 1.0, 1.0, if |v| > 5 then map[v[5] := 1.0] else map[])
  }

  lemma TotalsYield(labels: seq<Label>, s: ProtoStat, m: Metric)
    requires FamilyOf(m) == PerProtocol
    ensures Yields(ProtoTotals(labels, s), m, Values(labels))
  {
    assert IsPerProtocol(m);
    assert ProtoTotals(labels, s)[if m == ProtocolOperations then 0 else 1].metric == m;
  }

  lemma StagesAreOfStages(labels: seq<Label>, s: ProtoStat, x: Sample) returns (stage: string)
    requires x in ProtoStages(labels, s)
    ensures x in StageRow(labels, s)(stage)
  {
    InFlatMap(PROTOCOL_STAGES, StageRow(labels, s), x);
    var i :| 0 <= i < |PROTOCOL_STAGES| && x in StageRow(labels, s)(PROTOCOL_STAGES[i]);
    stage := PROTOCOL_STAGES[i];
  }

  lemma StagesAreNoTotals(labels: seq<Label>, s: ProtoStat)
    ensures forall x :: x in ProtoStages(labels, s) ==> x.metric == ProtocolLatencyStage
  {
    forall x | x in ProtoStages(labels, s) ensures x.metric == ProtocolLatencyStage {
      var stage := StagesAreOfStages(labels, s, x);
    }
  }

  lemma RowYieldsTotal(labels: seq<Label>, s: ProtoStat, m: Metric)
    requires FamilyOf(m) == PerProtocol
    ensures Yields(ProtoTotals(labels, s) + ProtoStages(labels, s), m, Values(labels))
  {
    TotalsYield(labels, s, m);
    StagesAreNoTotals(labels, s);
    YieldsBeside(ProtoTotals(labels, s), ProtoStages(labels, s), m, Values(labels));
  }

  lemma ProtocolTuple(v: seq<string>, c: string, id: string)
    requires IsTuple(v, PerProtocol, c, id)
    ensures Values(ProtocolLabels(c, id, Itoa(NodeOf(v)), v[3], v[4])) == v
  {
  }

  lemma ProtocolYields(v: seq<string>, m: Metric, c: string, id: string)
    requires FamilyOf(m) == PerProtocol && IsTuple(v, PerProtocol, c, id)
    ensures Yields(ProtoRow(c, id)(ProtocolOf(v)), m, v)
  {
    var s := ProtocolOf(v);
    var labels := ProtocolLabels(c, id, Itoa(s.node), s.protocol, s.operation);
    ProtocolTuple(v, c, id);
    RowYieldsTotal(labels, s, m);
  }

  lemma YieldsBeside(a: seq<Sample>, b: seq<Sample>, m: Metric, v: seq<string>)
    requires Yields(a, m, v) && forall x :: x in b ==> x.metric != m
    ensures Yields(a + b, m, v) && Yields(b + a, m, v)
  {
    var y :| y in a && y.metric == m;
    assert y in a + b && y in b + a;
  }

  // The stages of a row with one stage.
  lemma OneStageYields(labels: seq<Label>, s: ProtoStat, stage: string)
    requires s.stageAvg == map[stage := 1.0] && stage in PROTOCOL_STAGES
    ensures Yields(ProtoStages(labels, s), ProtocolLatencyStage, Values(labels) + [stage])
  {
    var more := labels + [Label(LStage, stage)];
    assert Values(more) == Values(labels) + [stage];
    var y := Sample(ProtocolLatencyStage, more, 1.0 / MICROS_PER_SECOND);
    var i :| 0 <= i < |PROTOCOL_STAGES| && PROTOCOL_STAGES[i] == stage;
    assert StageRow(labels, s)(stage) == [y] && y in StageRow(labels, s)(PROTOCOL_STAGES[i]);
    InFlatMap(PROTOCOL_STAGES, StageRow(labels, s), y);
    forall x | x in ProtoStages(labels, s) ensures x == y {
      var other := StagesAreOfStages(labels, s, x);
      assert other == stage;
    }
  }

  lemma RowYieldsStage(labels: seq<Label>, s: ProtoStat, stage: string)
    requires s.stageAvg == map[stage := 1.0] && stage in PROTOCOL_STAGES
    ensures Yields(ProtoTotals(labels, s) + ProtoStages(labels, s), ProtocolLatencyStage, Values(labels) + [stage])
  {
    OneStageYields(labels, s, stage);
    YieldsBeside(ProtoStages(labels, s), ProtoTotals(labels, s), ProtocolLatencyStage, Values(labels) + [stage]);
  }

  lemma StageTuple(v: seq<string>, c: string, id: string)
    requires IsTuple(v, PerStage, c, id)
    ensures Values(ProtocolLabels(c, id, Itoa(NodeOf(v)), v[3], v[4])) + [v[5]] == v
  {
  }

  lemma StageYields(v: seq<string>, c: string, id: string)
    requires IsTuple(v, PerStage, c, id)
    ensures Yields(ProtoRow(c, id)(ProtocolOf(v)), ProtocolLatencyStage, v)
  {
    var s := ProtocolOf(v);
    var labels := ProtocolLabels(c, id, Itoa(s.node), s.protocol, s.operation);
    StageTuple(v, c, id);
    RowYieldsStage(labels, s, v[5]);
  }
}
