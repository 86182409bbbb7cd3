/** The published snapshot and its index of samples by metric (internal/powerscale/snapshot.go). */
module Snapshots {
  import opened Wrappers
  import opened Paths
  import opened Counting
  import opened Metrics

  // A last-scrape time of 0 stands for the zero time.
  datatype ClusterSnapshot = ClusterSnapshot(
    cluster: string, up: bool, apiVersion: int, scrapeError: string, lastScrape: int, samples: seq<Sample>)

  datatype Snapshot = Snapshot(
    perCluster: map<string, ClusterSnapshot>, byName: map<Metric, seq<Sample>>, names: seq<Metric>)
  {
    function SamplesByName(m: Metric): seq<Sample> {
      if m in byName then byName[m] else []
    }
  }

  type Results = seq<Option<ClusterSnapshot>>

  function Flatten(results: Results): seq<Sample> {
    if results == [] then []
    else
      var last := results[|results| - 1];
      Flatten(results[..|results| - 1]) + if last.Some? then last.value.samples else []
  }

  // A name that occurs twice keeps its last entry.
  function PerCluster(results: Results): map<string, ClusterSnapshot> {
    if results == [] then map[]
    else
      var rest, last := PerCluster(results[..|results| - 1]), results[|results| - 1];
      if last.Some? then rest[last.value.cluster := last.value] else rest
  }

  function MetricsOf(samples: seq<Sample>): seq<Metric> {
    seq(|samples|, i requires 0 <= i < |samples| => samples[i].metric)
  }

  // `index` sorts `samples` by metric and keeps their order.
  ghost predicate Indexes(index: map<Metric, seq<Sample>>, samples: seq<Sample>) {
    && (forall m :: m in index <==> OfMetric(samples, m) != [])
    && forall m :: m in index ==> index[m] == OfMetric(samples, m)
  }

  /** What a snapshot of per-cluster results is: every cluster entry, and every sample under its metric in order. */
  ghost predicate IsSnapshotOf(snap: Snapshot, results: Results) {
    && snap.perCluster == PerCluster(results)
    && Indexes(snap.byName, Flatten(results))
    && NoDuplicates(snap.names)
    && forall m :: m in snap.names <==> m in snap.byName
  }

  lemma OfMetricSnoc(samples: seq<Sample>, s: Sample, m: Metric)
    ensures OfMetric(samples + [s], m) == OfMetric(samples, m) + if s.metric == m then [s] else []
  {
    assert (samples + [s])[..|samples|] == samples;
  }

  lemma IndexOneMore(index: map<Metric, seq<Sample>>, samples: seq<Sample>, s: Sample)
    requires Indexes(index, samples)
    ensures Indexes(index[s.metric := (if s.metric in index then index[s.metric] else []) + [s]], samples + [s])
  {
    forall m { OfMetricSnoc(samples, s, m); }
  }

  // Files the samples of one cluster after those already indexed.
  method IndexSamples(index: map<Metric, seq<Sample>>, ghost before: seq<Sample>, samples: seq<Sample>)
    returns (byName: map<Metric, seq<Sample>>)
    requires Indexes(index, before)
    ensures Indexes(byName, before + samples)
  {
    byName := index;
    assert before == before + samples[..0];
    for k := 0 to |samples|
      invariant Indexes(byName, before + samples[..k])
    {
      var s := samples[k];
      assert before + samples[..k + 1] == before + samples[..k] + [s];
      IndexOneMore(byName, before + samples[..k], s);
      byName := byName[s.metric := (if s.metric in byName then byName[s.metric] else []) + [s]];
    }
    assert samples[..|samples|] == samples;
  }

  // The metrics of the index, in any order.
  method NamesOf(byName: map<Metric, seq<Sample>>) returns (names: seq<Metric>)
    ensures NoDuplicates(names)
    ensures forall m :: m in names <==> m in byName
  {
    names := [];
    var todo := byName.Keys;
    while todo != {}
      invariant todo <= byName.Keys && NoDuplicates(names)
      invariant forall m :: m in names <==> m in byName.Keys - todo
      decreases todo
    {
      var m :| m in todo;
      assert m !in names;
      names := names + [m];
      todo := todo - {m};
    }
  }

  /** Assembles the snapshot of per-cluster results. */
  method BuildSnapshot(results: Results) returns (snap: Snapshot)
    ensures IsSnapshotOf(snap, results)
  {
    var perCluster: map<string, ClusterSnapshot> := map[];
    var byName: map<Metric, seq<Sample>> := map[];
    for i := 0 to |results|
      invariant perCluster == PerCluster(results[..i])
      invariant Indexes(byName, Flatten(results[..i]))
    {
      assert results[..i + 1][..i] == results[..i];
      ghost var flat := Flatten(results[..i]);
      if results[i].None? {
        assert Flatten(results[..i + 1]) == flat;
        continue;
      }
      var cs := results[i].value;
      perCluster := perCluster[cs.cluster := cs];
      byName := IndexSamples(byName, flat, cs.samples);
    }
    assert results[..|results|] == results;
    var names := NamesOf(byName);
    return Snapshot(perCluster, byName, names);
  }

  lemma {:induction false} CountIsLengthOfMetric(samples: seq<Sample>, m: Metric)
    ensures Count(MetricsOf(samples), m) == |OfMetric(samples, m)|
  {
    if samples != [] {
      CountIsLengthOfMetric(samples[..|samples| - 1], m);
      assert MetricsOf(samples)[..|samples| - 1] == MetricsOf(samples[..|samples| - 1]);
    }
  }

  // The lengths of the index entries, added up over the metric names.
  function IndexedTotal(snap: Snapshot, names: seq<Metric>): nat {
    if names == [] then 0 else |snap.SamplesByName(names[0])| + IndexedTotal(snap, names[1..])
  }

  lemma {:induction false} IndexedTotalIsSumOfCounts(snap: Snapshot, names: seq<Metric>, samples: seq<Sample>)
    requires Indexes(snap.byName, samples)
    ensures IndexedTotal(snap, names) == SumCounts(names, MetricsOf(samples))
  {
    if names != [] {
      CountIsLengthOfMetric(samples, names[0]);
      IndexedTotalIsSumOfCounts(snap, names[1..], samples);
    }
  }

  /** The index holds every sample once: its entries add up to all samples of all clusters. */
  lemma IndexLosesNothing(snap: Snapshot, results: Results)
    requires IsSnapshotOf(snap, results)
    ensures IndexedTotal(snap, snap.names) == |Flatten(results)|
  {
    var samples := Flatten(results);
    IndexedTotalIsSumOfCounts(snap, snap.names, samples);
    forall m | m in MetricsOf(samples) ensures m in snap.names {
      CountIsPositive(MetricsOf(samples), m);
      CountIsLengthOfMetric(samples, m);
    }
    CountsSumToLength(snap.names, MetricsOf(samples));
  }

  lemma {:induction false} PerClusterHas(results: Results, name: string)
    ensures name in PerCluster(results) <==> exists i :: 0 <= i < |results| && results[i].Some? && results[i].value.cluster == name
  {
    if results != [] {
      var k := |results| - 1;
      PerClusterHas(results[..k], name);
      if i :| 0 <= i < |results| && results[i].Some? && results[i].value.cluster == name {
        assert i < k ==> results[..k][i] == results[i];
      }
      if i :| 0 <= i < k && results[..k][i].Some? && results[..k][i].value.cluster == name {
        assert results[i] == results[..k][i];
      }
    }
  }

  /** What is found under a name is the last entry of that name. */
  lemma {:induction false} PerClusterIsAnEntry(results: Results, name: string) returns (i: nat)
    requires name in PerCluster(results)
    ensures i < |results| && results[i] == Some(PerCluster(results)[name]) && PerCluster(results)[name].cluster == name
    ensures forall j :: i < j < |results| && results[j].Some? ==> results[j].value.cluster != name
  {
    var k := |results| - 1;
    if results[k].Some? && results[k].value.cluster == name {
      i := k;
    } else {
      i := PerClusterIsAnEntry(results[..k], name);
    }
  }

  /** With distinct cluster names every result, down or up, is found under its own name. */
  lemma {:induction false} PerClusterFinds(results: Results, i: nat)
    requires i < |results| && results[i].Some?
    requires forall a, b :: 0 <= a < b < |results| && results[a].Some? && results[b].Some? ==>
               results[a].value.cluster != results[b].value.cluster
    ensures results[i].value.cluster in PerCluster(results)
    ensures PerCluster(results)[results[i].value.cluster] == results[i].value
  {
    var k := |results| - 1;
    if i < k {
      assert results[..k][i] == results[i];
      PerClusterFinds(results[..k], i);
    }
  }

  /** The latest published snapshot: exporters read it while the collection loop replaces it. */
  class SnapshotStore {
    var current: Snapshot

    constructor ()
      ensures IsSnapshotOf(current, [])
    {
      current := Snapshot(map[], map[], []);
    }

    method Load() returns (snap: Snapshot)
      ensures snap == current
    {
      snap := current;
    }

    method Store(snap: Snapshot)
      modifies this
      ensures current == snap
    {
      current := snap;
    }
  }
}
