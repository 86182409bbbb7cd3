/** The embedded table of statistics keys (internal/powerscale/statkeys.go, statisticsKeys.json). */
module StatKeys {
  import opened Metrics

  const STAT_KEYS: seq<StatKeySpec> := [
    StatKeySpec("cluster.cpu.sys.avg", ClusterCpuSys, ClusterScope, 10.0),
    StatKeySpec("cluster.cpu.user.avg", ClusterCpuUser, ClusterScope, 10.0),
    StatKeySpec("cluster.cpu.idle.avg", ClusterCpuIdle, ClusterScope, 10.0),
    StatKeySpec("ifs.bytes.total", ClusterTotalCapacity, ClusterScope, 0.0),
    StatKeySpec("ifs.bytes.used", ClusterUsedCapacity, ClusterScope, 0.0),
    StatKeySpec("ifs.bytes.avail", ClusterAvailableCapacity, ClusterScope, 0.0),
    StatKeySpec("ifs.bytes.free", ClusterFreeCapacity, ClusterScope, 0.0),
    StatKeySpec("cluster.disk.xfers.rate", ClusterDiskOperations, ClusterScope, 0.0),
    StatKeySpec("cluster.net.ext.bytes.in.rate", ClusterNetIn, ClusterScope, 0.0),
    StatKeySpec("cluster.net.ext.bytes.out.rate", ClusterNetOut, ClusterScope, 0.0),
    StatKeySpec("node.cpu.idle.avg", NodeCpuIdle, NodeScope, 10.0),
    StatKeySpec("node.cpu.sys.avg", NodeCpuSys, NodeScope, 10.0),
    StatKeySpec("node.cpu.user.avg", NodeCpuUser, NodeScope, 10.0),
    StatKeySpec("node.memory.used", NodeMemoryUsed, NodeScope, 0.0),
    StatKeySpec("node.disk.xfers.rate.sum", NodeDiskOperations, NodeScope, 0.0),
    StatKeySpec("node.ifs.bytes.used", NodeUsedCapacity, NodeScope, 0.0),
    StatKeySpec("node.ifs.cache.l1.data.read.hit", NodeCacheL1Hit, NodeScope, 0.0),
    StatKeySpec("node.ifs.cache.l1.data.read.miss", NodeCacheL1Miss, NodeScope, 0.0),
    StatKeySpec("node.ifs.cache.l2.data.read.hit", NodeCacheL2Hit, NodeScope, 0.0),
    StatKeySpec("node.ifs.cache.l2.data.read.miss", NodeCacheL2Miss, NodeScope, 0.0),
    StatKeySpec("node.ifs.cache.l3.data.read.hit", NodeCacheL3Hit, NodeScope, 0.0),
    StatKeySpec("node.ifs.cache.l3.data.read.miss", NodeCacheL3Miss, NodeScope, 0.0)
  ]

  // A key listed twice keeps its last row.
  function KeyTable(specs: seq<StatKeySpec>): map<string, StatKeySpec> {
    if specs == [] then map[]
    else KeyTable(specs[..|specs| - 1])[specs[|specs| - 1].key := specs[|specs| - 1]]
  }

  /** The last row of a key wins. */
  lemma {:induction false} LastRowWins(specs: seq<StatKeySpec>, i: nat)
    requires i < |specs| && forall j :: i < j < |specs| ==> specs[j].key != specs[i].key
    ensures specs[i].key in KeyTable(specs) && KeyTable(specs)[specs[i].key] == specs[i]
  {
    var n := |specs| - 1;
    if i < n {
      LastRowWins(specs[..n], i);
    }
  }

  /** Indexes the rows by key: no other keys, and the last row of each. */
  method IndexKeys(specs: seq<StatKeySpec>) returns (table: map<string, StatKeySpec>)
    ensures table == KeyTable(specs)
    ensures forall key :: key in table ==> table[key] in specs && table[key].key == key
    ensures forall i :: 0 <= i < |specs| && (forall j :: i < j < |specs| ==> specs[j].key != specs[i].key) ==>
              specs[i].key in table && table[specs[i].key] == specs[i]
  {
    table := map[];
    for i := 0 to |specs|
      invariant table == KeyTable(specs[..i])
    {
      assert specs[..i + 1][..i] == specs[..i];
      table := table[specs[i].key := specs[i]];
    }
    assert specs[..|specs|] == specs;
    forall key | key in table ensures table[key] in specs && table[key].key == key {
      TableHoldsSpecs(specs, key);
    }
    forall i: nat | i < |specs| && (forall j :: i < j < |specs| ==> specs[j].key != specs[i].key)
      ensures specs[i].key in table && table[specs[i].key] == specs[i]
    {
      LastRowWins(specs, i);
    }
  }

  lemma {:induction false} TableHoldsSpecs(specs: seq<StatKeySpec>, key: string)
    requires key in KeyTable(specs)
    ensures KeyTable(specs)[key] in specs && KeyTable(specs)[key].key == key
  {
    var n := |specs| - 1;
    if key != specs[n].key {
      TableHoldsSpecs(specs[..n], key);
    }
  }

  /** Every row of the embedded table scopes its metric as the metric's labels require. */
  lemma EmbeddedKeysAreWellScoped()
    ensures forall i :: 0 <= i < |STAT_KEYS| ==> WellScoped(STAT_KEYS[i])
  {
  }

  lemma TableIsWellScoped(specs: seq<StatKeySpec>, key: string)
    requires forall i :: 0 <= i < |specs| ==> WellScoped(specs[i])
    requires key in KeyTable(specs)
    ensures WellScoped(KeyTable(specs)[key])
  {
    TableHoldsSpecs(specs, key);
  }

  /** So every statistic the program knows fits the labels of its metric. */
  lemma EmbeddedTableIsWellScoped()
    ensures forall key :: key in KeyTable(STAT_KEYS) ==> WellScoped(KeyTable(STAT_KEYS)[key])
  {
    EmbeddedKeysAreWellScoped();
    forall key | key in KeyTable(STAT_KEYS) ensures WellScoped(KeyTable(STAT_KEYS)[key]) {
      TableIsWellScoped(STAT_KEYS, key);
    }
  }

  // `first` lists the rows in which the keys appear first, in order.
  ghost predicate FirstRows(first: seq<nat>, keys: seq<string>, specs: seq<StatKeySpec>) {
    && |first| == |keys|
    && (forall a, b :: 0 <= a < b < |first| ==> first[a] < first[b])
    && forall a :: 0 <= a < |first| ==> IsFirstRow(first[a], keys[a], specs)
  }

  ghost predicate IsFirstRow(i: nat, key: string, specs: seq<StatKeySpec>) {
    i < |specs| && specs[i].key == key && forall j :: 0 <= j < i ==> specs[j].key != key
  }

  /** The distinct keys to request, in order of first appearance. */
  method QueryKeys(specs: seq<StatKeySpec>) returns (keys: seq<string>, ghost first: seq<nat>)
    ensures forall i, j :: 0 <= i < j < |keys| ==> keys[i] != keys[j]
    ensures forall k :: k in keys <==> exists i :: 0 <= i < |specs| && specs[i].key == k
    ensures FirstRows(first, keys, specs)
  {
    keys, first := [], [];
    var seen: set<string> := {};
    for i := 0 to |specs|
      invariant forall k :: k in keys <==> k in seen
      invariant forall j :: 0 <= j < i ==> specs[j].key in seen
      invariant FirstRows(first, keys, specs) && forall a :: 0 <= a < |first| ==> first[a] < i
    {
      if specs[i].key !in seen {
        assert IsFirstRow(i, specs[i].key, specs);
        keys, first := keys + [specs[i].key], first + [i];
      }
      seen := seen + {specs[i].key};
    }
    forall k | k in keys ensures exists i :: 0 <= i < |specs| && specs[i].key == k {
      var a :| 0 <= a < |keys| && keys[a] == k;
      assert IsFirstRow(first[a], keys[a], specs);
    }
    forall i, j | 0 <= i < j < |keys| ensures keys[i] != keys[j] {
      assert IsFirstRow(first[i], keys[i], specs) && IsFirstRow(first[j], keys[j], specs);
    }
  }
}
