/** The typed state of one cluster, and the drive counts of its nodes (internal/models/onefs.go). */
module Inventory {
  import opened Wrappers
  import opened Strings
  import opened Counting

  // `HoldsNoNul` says of a part of the report that the texts that become label values are NUL-free.

  datatype Sensor = Sensor(name: string, value: real)

  datatype Node = Node(
    id: int, lnn: int, readonly: bool, smartfail: bool, drivesByState: map<string, nat>,
    powerSupplies: int, powerSupplyFailures: int, temperatures: seq<Sensor>, fans: seq<Sensor>,
    product: string, series: string, hwgen: string)
  {
    predicate VirtualHardware() {
      Fold(series) == "virtual_series" || HasInfix(Lower(hwgen), "vmware")
    }

    predicate ReportsHardwareSensors() {
      powerSupplies > 0 || |temperatures| > 0 || |fans| > 0
    }

    predicate HoldsNoNul() {
      && NoNul(product) && NoNul(series) && NoNul(hwgen)
      && (forall s :: s in drivesByState ==> NoNul(s))
      && (forall s :: s in temperatures ==> NoNul(s.name))
      && forall s :: s in fans ==> NoNul(s.name)
    }
  }

  datatype Quota = Quota(
    id: string, path: string, kind: string, usage: real, physical: real, appLogical: real,
    reductionRatio: real, hard: real, soft: real, advisory: real)
  {
    predicate HoldsNoNul() {
      NoNul(id) && NoNul(path) && NoNul(kind)
    }
  }

  datatype Counts = Counts(nfsExports: int, smbShares: int, snapshots: int)

  datatype SyncPolicy = SyncPolicy(name: string, enabled: bool, lastJobState: string)
  {
    predicate HoldsNoNul() {
      NoNul(name)
    }
  }

  datatype DedupeSummary = DedupeSummary(logicalSaved: real, deduplicated: real)

  datatype License = License(name: string, status: string, expirationUnix: int)
  {
    predicate HoldsNoNul() {
      NoNul(name) && NoNul(status)
    }
  }

  datatype StoragePool = StoragePool(
    name: string, kind: string, total: real, used: real, avail: real,
    ssdTotal: real, ssdUsed: real, ssdAvail: real, hddTotal: real, hddUsed: real, hddAvail: real)
  {
    predicate HoldsNoNul() {
      NoNul(name) && NoNul(kind)
    }
  }

  datatype Inventory = Inventory(
    guid: string, nodes: seq<Node>, quotas: seq<Quota>, counts: Counts, snapshotUsed: real,
    syncPolicies: seq<SyncPolicy>, events: map<string, int>, dedupe: DedupeSummary,
    licenses: seq<License>, storagePools: seq<StoragePool>)
  {
    predicate HoldsNoNul() {
      && NoNul(guid)
      && (forall n :: n in nodes ==> n.HoldsNoNul())
      && (forall q :: q in quotas ==> q.HoldsNoNul())
      && (forall p :: p in syncPolicies ==> p.HoldsNoNul())
      && (forall severity :: severity in events ==> NoNul(severity))
      && (forall l :: l in licenses ==> l.HoldsNoNul())
      && forall p :: p in storagePools ==> p.HoldsNoNul()
    }
  }

  datatype StatPoint = StatPoint(key: string, devId: int, value: real)

  datatype ProtoStat = ProtoStat(
    node: int, protocol: string, operation: string, operationRate: real, latencyAvg: real, stageAvg: map<string, real>)
  {
    predicate HoldsNoNul() {
      NoNul(protocol) && NoNul(operation)
    }
  }

  datatype DriveStat = DriveStat(node: int, bay: string, kind: string, opsPerSec: real, busyPercent: real)
  {
    predicate HoldsNoNul() {
      NoNul(bay) && NoNul(kind)
    }
  }

  datatype ClientStat = ClientStat(node: int, protocol: string, protocolClass: string, opsPerSec: real, inBps: real, outBps: real)
  {
    predicate HoldsNoNul() {
      NoNul(protocol) && NoNul(protocolClass)
    }
  }

  datatype Workload = Workload(
    node: int, zone: string, protocol: string, username: string, systemName: string, jobType: string,
    ops: real, bytesIn: real, bytesOut: real, cpuMicros: real)
  {
    predicate HoldsNoNul() {
      && NoNul(zone) && NoNul(protocol) && NoNul(username)
      && NoNul(systemName) && NoNul(jobType)
    }
  }

  datatype Statistics = Statistics(
    current: seq<StatPoint>, proto: seq<ProtoStat>, drives: seq<DriveStat>,
    clients: seq<ClientStat>, workloads: seq<Workload>)
  {
    predicate HoldsNoNul() {
      && (forall p :: p in proto ==> p.HoldsNoNul())
      && (forall d :: d in drives ==> d.HoldsNoNul())
      && (forall s :: s in clients ==> s.HoldsNoNul())
      && forall w :: w in workloads ==> w.HoldsNoNul()
    }
  }

  // ---------------------------------------------------------------- drives by state

  // A drive of the nodes payload; older payloads do not say whether it is present.
  datatype RawDrive = RawDrive(uiState: string, present: Option<bool>)

  predicate EmptyBay(d: RawDrive) {
    d.present == Some(false)
  }

  function StateOf(d: RawDrive): string {
    if d.uiState == "" then "UNKNOWN" else d.uiState
  }

  // The states of the drives that count, in payload order.
  function States(drives: seq<RawDrive>): seq<string> {
    if drives == [] then []
    else
      var d := drives[|drives| - 1];
      States(drives[..|drives| - 1]) + if EmptyBay(d) then [] else [StateOf(d)]
  }

  // `m` counts `states` by value.
  ghost predicate IsCountOf(m: map<string, nat>, states: seq<string>) {
    && (forall s :: s in m <==> s in states)
    && forall s :: s in m ==> m[s] == Count(states, s)
  }

  lemma CountOneMore(m: map<string, nat>, states: seq<string>, s: string)
    requires IsCountOf(m, states)
    ensures IsCountOf(m[s := 1 + if s in m then m[s] else 0], states + [s])
  {
    assert (states + [s])[..|states|] == states;
    CountIsPositive(states, s);
    assert forall t :: Count(states + [s], t) == Count(states, t) + if t == s then 1 else 0;
  }

  // The positions of the drives in a state: a drive said to be absent is in none, one without a state is UNKNOWN.
  ghost function PositionsIn(drives: seq<RawDrive>, state: string): set<int> {
    set i | 0 <= i < |drives| && drives[i].present != Some(false) &&
            (drives[i].uiState == state != "" || (drives[i].uiState == "" && state == "UNKNOWN"))
  }

  lemma PositionsSnoc(drives: seq<RawDrive>, d: RawDrive, state: string)
    ensures PositionsIn(drives + [d], state)
         == PositionsIn(drives, state) + if !EmptyBay(d) && StateOf(d) == state then {|drives|} else {}
  {
    var all := drives + [d];
    assert all[|drives|] == d;
    assert forall i :: 0 <= i < |drives| ==> all[i] == drives[i];
  }

  lemma {:induction false} CountIsNumberOfPositions(drives: seq<RawDrive>, state: string)
    ensures Count(States(drives), state) == |PositionsIn(drives, state)|
  {
    if drives != [] {
      var rest, d := drives[..|drives| - 1], drives[|drives| - 1];
      CountIsNumberOfPositions(rest, state);
      PositionsSnoc(rest, d, state);
      assert rest + [d] == drives && |rest| !in PositionsIn(rest, state);
      if EmptyBay(d) {
        assert States(drives) == States(rest);
      } else {
        CountLast(States(rest), StateOf(d), state);
      }
    }
  }

  lemma CountLast(states: seq<string>, last: string, state: string)
    ensures Count(states + [last], state) == Count(states, state) + if last == state then 1 else 0
  {
    assert (states + [last])[..|states|] == states;
  }

  ghost predicate CountsState(m: map<string, nat>, drives: seq<RawDrive>, state: string) {
    (state in m <==> PositionsIn(drives, state) != {}) && (state in m ==> m[state] == |PositionsIn(drives, state)|)
  }

  // Every state some drive is in, with the number of those drives.
  ghost predicate CountsPositions(m: map<string, nat>, drives: seq<RawDrive>) {
    forall state :: CountsState(m, drives, state)
  }

  lemma CountsAreOfPositions(m: map<string, nat>, drives: seq<RawDrive>)
    requires IsCountOf(m, States(drives))
    ensures CountsPositions(m, drives)
  {
    forall state ensures CountsState(m, drives, state) {
      CountIsNumberOfPositions(drives, state);
      CountIsPositive(States(drives), state);
    }
  }

  /** Counts the listed drives by state, passing over empty bays. */
  method CountDrives(drives: seq<RawDrive>) returns (m: map<string, nat>)
    ensures CountsPositions(m, drives)
    ensures IsCountOf(m, States(drives))
  {
    m := map[];
    for i := 0 to |drives|
      invariant IsCountOf(m, States(drives[..i]))
    {
      assert drives[..i + 1][..i] == drives[..i];
      if drives[i].present.Some? && !drives[i].present.value {
        assert States(drives[..i + 1]) == States(drives[..i]);
        continue;
      }
      var state := drives[i].uiState;
      if state == "" {
        state := "UNKNOWN";
      }
      CountOneMore(m, States(drives[..i]), state);
      assert States(drives[..i + 1]) == States(drives[..i]) + [state];
      m := m[state := 1 + if state in m then m[state] else 0];
    }
    assert drives[..|drives|] == drives;
    CountsAreOfPositions(m, drives);
  }
}
