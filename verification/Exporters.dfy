/** What a scrape of a snapshot hands to Prometheus (internal/powerscale/prometheus.go). */
module Exporters {
  import opened Strings
  import opened Paths
  import opened Metrics
  import opened Snapshots
  import opened Signatures

  // ---------------------------------------------------------------- what Prometheus is offered

  datatype Emitted = Emitted(metric: Metric, labelNames: seq<LabelName>, values: seq<string>, value: real)

  datatype Health =
    | Up(cluster: string, value: real)
    | LastScrape(cluster: string, time: int)
    | ApiVersion(cluster: string, version: int)

  // The name of the metric and, joined by NUL, the label values. The name is the same for all samples
  // whose signatures are compared.
  datatype Signature = Signature(metric: Metric, joined: string)

  function SignatureOf(s: Sample): Signature {
    Signature(s.metric, JoinNul(Values(s.labels)))
  }

  predicate HasSignature(samples: seq<Sample>, sig: Signature) {
    exists i :: 0 <= i < |samples| && SignatureOf(samples[i]) == sig
  }

  predicate SeenBefore(samples: seq<Sample>, s: Sample) {
    HasSignature(samples, SignatureOf(s))
  }

  // Samples whose signature has not occurred before.
  function Kept(samples: seq<Sample>): seq<Sample> {
    if samples == [] then []
    else
      var k := |samples| - 1;
      Kept(samples[..k]) + if SeenBefore(samples[..k], samples[k]) then [] else [samples[k]]
  }

  // The library refuses a descriptor that repeats a label name, and a sample whose number of label values
  // is not the descriptor's number of label names.
  predicate Accepted(labelNames: seq<LabelName>, values: seq<string>) {
    NoDuplicates(labelNames) && |values| == |labelNames|
  }

  // What becomes of handing the library one sample.
  function Offer(m: Metric, labelNames: seq<LabelName>, s: Sample): seq<Emitted> {
    if Accepted(labelNames, Values(s.labels)) then [Emitted(m, labelNames, Values(s.labels), s.value)] else []
  }

  function Offers(m: Metric, labelNames: seq<LabelName>, samples: seq<Sample>): seq<Emitted> {
    if samples == [] then []
    else Offers(m, labelNames, samples[..|samples| - 1]) + Offer(m, labelNames, samples[|samples| - 1])
  }

  // One descriptor for all samples of a metric, with the label names of the first.
  function OffersOf(snap: Snapshot, m: Metric): seq<Emitted> {
    var samples := snap.SamplesByName(m);
    if samples == [] then [] else Offers(m, Names(samples[0].labels), Kept(samples))
  }

  function ByName(f: Metric -> seq<Emitted>, names: seq<Metric>): seq<Emitted> {
    if names == [] then [] else ByName(f, names[..|names| - 1]) + f(names[|names| - 1])
  }

  function Collected(snap: Snapshot, names: seq<Metric>): seq<Emitted> {
    ByName((m: Metric) => OffersOf(snap, m), names)
  }

  lemma StepOfOffers(m: Metric, labelNames: seq<LabelName>, kept: seq<Sample>, s: Sample)
    ensures Offers(m, labelNames, kept + [s]) == Offers(m, labelNames, kept) + Offer(m, labelNames, s)
  {
    assert (kept + [s])[..|kept|] == kept;
  }

  lemma KeptOfSnoc(samples: seq<Sample>, s: Sample)
    ensures Kept(samples + [s]) == Kept(samples) + if SeenBefore(samples, s) then [] else [s]
  {
    assert (samples + [s])[..|samples|] == samples;
  }

  // `seen` holds the signatures of `samples`.
  ghost predicate AreSignatures(seen: set<Signature>, samples: seq<Sample>) {
    forall sig :: sig in seen <==> HasSignature(samples, sig)
  }

  lemma SignaturesOfSnoc(seen: set<Signature>, samples: seq<Sample>, s: Sample)
    requires AreSignatures(seen, samples)
    ensures AreSignatures(seen + {SignatureOf(s)}, samples + [s])
  {
    var more := samples + [s];
    assert SignatureOf(more[|samples|]) == SignatureOf(s);
    forall sig ensures HasSignature(more, sig) <==> HasSignature(samples, sig) || sig == SignatureOf(s) {
      if i :| 0 <= i < |samples| && SignatureOf(samples[i]) == sig {
        assert SignatureOf(more[i]) == sig;
      }
    }
  }

  // Of the samples `done`, `out` has been offered.
  ghost predicate Offered(m: Metric, labelNames: seq<LabelName>, done: seq<Sample>, seen: set<Signature>, out: seq<Emitted>) {
    AreSignatures(seen, done) && out == Offers(m, labelNames, Kept(done))
  }

  // Offers one more sample of the metric unless its signature was seen.
  method OfferNew(m: Metric, labelNames: seq<LabelName>, s: Sample, seen: set<Signature>, out: seq<Emitted>, ghost done: seq<Sample>)
    returns (seen': set<Signature>, out': seq<Emitted>)
    requires s.metric == m && Offered(m, labelNames, done, seen, out)
    ensures Offered(m, labelNames, done + [s], seen', out')
  {
    var sig := Signature(m, JoinNul(Values(s.labels)));
    KeptOfSnoc(done, s);
    SignaturesOfSnoc(seen, done, s);
    if sig in seen {
      assert seen + {sig} == seen && Kept(done) + [] == Kept(done);
      return seen, out;
    }
    StepOfOffers(m, labelNames, Kept(done), s);
    return seen + {sig}, out + Offer(m, labelNames, s);
  }

  method CollectMetric(m: Metric, samples: seq<Sample>) returns (out: seq<Emitted>)
    requires samples != []
    requires forall i :: 0 <= i < |samples| ==> samples[i].metric == m
    ensures out == Offers(m, Names(samples[0].labels), Kept(samples))
  {
    out := [];
    var labelNames := Names(samples[0].labels);
    var seen: set<Signature> := {};
    for i := 0 to |samples|
      invariant Offered(m, labelNames, samples[..i], seen, out)
    {
      assert samples[..i + 1] == samples[..i] + [samples[i]];
      seen, out := OfferNew(m, labelNames, samples[i], seen, out, samples[..i]);
    }
    assert samples[..|samples|] == samples;
  }

  // A cluster's own health series.
  function HealthOf(name: string, cs: ClusterSnapshot): seq<Health> {
    [Up(name, if cs.up then 1.0 else 0.0)]
    + (if cs.up && cs.lastScrape != 0 then [LastScrape(name, cs.lastScrape)] else [])
    + (if cs.apiVersion > 0 then [ApiVersion(name, cs.apiVersion)] else [])
  }

  // Health series of one name and cluster.
  predicate SameHealth(a: Health, b: Health) {
    a.cluster == b.cluster && (a.Up? <==> b.Up?) && (a.LastScrape? <==> b.LastScrape?)
  }

  predicate HealthOnce(health: seq<Health>) {
    forall i, j :: 0 <= i < j < |health| ==> !SameHealth(health[i], health[j])
  }

  // `health` is that of the clusters `names` of the snapshot, each series once.
  ghost predicate IsHealthOf(health: seq<Health>, snap: Snapshot, names: set<string>)
    requires names <= snap.perCluster.Keys
  {
    && HealthOnce(health)
    && forall h :: h in health <==> exists name :: name in names && h in HealthOf(name, snap.perCluster[name])
  }

  lemma HealthOfOneMore(health: seq<Health>, snap: Snapshot, names: set<string>, name: string)
    requires names <= snap.perCluster.Keys && IsHealthOf(health, snap, names)
    requires name in snap.perCluster && name !in names
    ensures IsHealthOf(health + HealthOf(name, snap.perCluster[name]), snap, names + {name})
  {
    var more := HealthOf(name, snap.perCluster[name]);
    forall i | 0 <= i < |health| ensures health[i].cluster in names {
      assert health[i] in health;
    }
    assert forall i :: 0 <= i < |more| ==> more[i].cluster == name;
    forall h ensures h in health + more <==>
                     exists n :: n in names + {name} && h in HealthOf(n, snap.perCluster[n]) {
      if h in more {
        assert name in names + {name};
      }
    }
  }

  method CollectHealth(snap: Snapshot) returns (health: seq<Health>)
    ensures IsHealthOf(health, snap, snap.perCluster.Keys)
  {
    health := [];
    var todo := snap.perCluster.Keys;
    while todo != {}
      invariant todo <= snap.perCluster.Keys
      invariant IsHealthOf(health, snap, snap.perCluster.Keys - todo)
      decreases todo
    {
      var name :| name in todo;
      HealthOfOneMore(health, snap, snap.perCluster.Keys - todo, name);
      assert snap.perCluster.Keys - (todo - {name}) == (snap.perCluster.Keys - todo) + {name};
      health := health + HealthOf(name, snap.perCluster[name]);
      todo := todo - {name};
    }
    assert snap.perCluster.Keys - {} == snap.perCluster.Keys;
  }

  /** Offers the health of every cluster, each series once and in any order, and every sample kept. */
  method Collect(snap: Snapshot) returns (health: seq<Health>, out: seq<Emitted>)
    requires forall m :: m in snap.byName ==> forall i :: 0 <= i < |snap.byName[m]| ==> snap.byName[m][i].metric == m
    ensures out == Collected(snap, snap.names)
    ensures IsHealthOf(health, snap, snap.perCluster.Keys)
  {
    health := CollectHealth(snap);
    out := [];
    for i := 0 to |snap.names|
      invariant out == Collected(snap, snap.names[..i])
    {
      var m := snap.names[i];
      var samples := snap.SamplesByName(m);
      assert snap.names[..i + 1][..i] == snap.names[..i];
      if |samples| == 0 {
        continue;
      }
      var offers := CollectMetric(m, samples);
      out := out + offers;
    }
    assert snap.names[..|snap.names|] == snap.names;
  }

  // ---------------------------------------------------------------- exactly the first samples are offered

  // Labelled as its metric demands: what the sample builders yield.
  predicate Fits(s: Sample) {
    Names(s.labels) == LabelNames(s.metric)
  }

  predicate AllFit(samples: seq<Sample>) {
    forall i :: 0 <= i < |samples| ==> Fits(samples[i])
  }

  // What they yield for NUL-free inventory texts.
  predicate Clean(s: Sample) {
    Fits(s) && NulFree(Values(s.labels))
  }

  predicate AllClean(samples: seq<Sample>) {
    forall i :: 0 <= i < |samples| ==> Clean(samples[i])
  }

  predicate SameSeries(s: Sample, t: Sample) {
    s.metric == t.metric && Values(s.labels) == Values(t.labels)
  }

  predicate Repeated(rest: seq<Sample>, s: Sample) {
    exists i :: 0 <= i < |rest| && SameSeries(rest[i], s)
  }

  // The samples that no earlier sample of the same series precedes.
  function Firsts(samples: seq<Sample>): seq<Sample> {
    if samples == [] then []
    else
      var k := |samples| - 1;
      Firsts(samples[..k])
      + if Repeated(samples[..k], samples[k]) then [] else [samples[k]]
  }

  /** The signature of a clean sample tells its series from every other series, whatever texts that one holds. */
  lemma SignatureTellsSeries(s: Sample, t: Sample)
    requires Fits(s) && Clean(t)
    ensures SignatureOf(s) == SignatureOf(t) <==> SameSeries(s, t)
  {
    if SignatureOf(s) == SignatureOf(t) {
      assert |Values(s.labels)| == |Names(s.labels)| == |Names(t.labels)| == |Values(t.labels)|;
      NulFreeTupleStandsAlone(Values(t.labels), Values(s.labels));
    }
  }

  // ---------------------------------------------------------------- what is kept, and what is lost

  /** Every signature is kept once, by a sample that had it: nothing else is dropped. */
  lemma {:induction false} KeptCoversSignatures(samples: seq<Sample>)
    ensures forall k :: k in Kept(samples) ==> k in samples
    ensures forall s :: s in samples ==> HasSignature(Kept(samples), SignatureOf(s))
  {
    if samples != [] {
      var rest, last := samples[..|samples| - 1], samples[|samples| - 1];
      assert samples == rest + [last];
      KeptCoversSignatures(rest);
      KeptOfSnoc(rest, last);
      var kept, more := Kept(rest), if SeenBefore(rest, last) then [] else [last];
      assert Kept(samples) == kept + more;
      forall s | s in samples ensures HasSignature(kept + more, SignatureOf(s)) {
        if s in rest || SeenBefore(rest, last) {
          var r := if s in rest then s else SampleOfSignature(rest, SignatureOf(last));
          var i :| 0 <= i < |kept| && SignatureOf(kept[i]) == SignatureOf(r);
          assert (kept + more)[i] == kept[i];
        } else {
          assert (kept + more)[|kept|] == last;
        }
      }
    }
  }

  ghost function SampleOfSignature(samples: seq<Sample>, sig: Signature): (s: Sample)
    requires HasSignature(samples, sig)
    ensures s in samples && SignatureOf(s) == sig
  {
    var i :| 0 <= i < |samples| && SignatureOf(samples[i]) == sig;
    samples[i]
  }

  /** A series that comes after another one of its signature is lost. */
  lemma {:induction false} LostAfter(before: seq<Sample>, after: seq<Sample>, x: Sample)
    requires HasSignature(before, SignatureOf(x))
    requires forall s :: s in before ==> !SameSeries(s, x)
    ensures forall k :: k in Kept(before + after) ==> !SameSeries(k, x)
  {
    if after == [] {
      assert before + after == before;
      KeptCoversSignatures(before);
    } else {
      var rest, last := after[..|after| - 1], after[|after| - 1];
      assert before + after == (before + rest) + [last];
      LostAfter(before, rest, x);
      KeptOfSnoc(before + rest, last);
      if SameSeries(last, x) {
        var i :| 0 <= i < |before| && SignatureOf(before[i]) == SignatureOf(x);
        assert (before + rest)[i] == before[i];
        assert SignatureOf(last) == SignatureOf(x);
        assert SeenBefore(before + rest, last);
      }
    }
  }

  lemma {:induction false} InOfMetric(samples: seq<Sample>, m: Metric, s: Sample)
    ensures s in OfMetric(samples, m) <==> s in samples && s.metric == m
  {
    if samples != [] {
      InOfMetric(samples[..|samples| - 1], m, s);
      assert samples == samples[..|samples| - 1] + [samples[|samples| - 1]];
    }
  }

  // Deduplicating each metric separately keeps what deduplicating the whole list keeps.
  lemma {:induction false} KeptAreFirsts(samples: seq<Sample>, m: Metric)
    requires AllClean(samples)
    ensures Kept(OfMetric(samples, m)) == OfMetric(Firsts(samples), m)
  {
    if samples != [] {
      var rest, s := samples[..|samples| - 1], samples[|samples| - 1];
      assert samples == rest + [s];
      KeptAreFirsts(rest, m);
      KeptAreFirstsStep(rest, s, m, OfMetric(rest, m), Firsts(rest));
    }
  }

  lemma KeptAreFirstsStep(rest: seq<Sample>, s: Sample, m: Metric, same: seq<Sample>, firsts: seq<Sample>)
    requires AllClean(rest) && Clean(s)
    requires same == OfMetric(rest, m) && firsts == Firsts(rest)
    requires Kept(same) == OfMetric(firsts, m)
    ensures Kept(OfMetric(rest + [s], m)) == OfMetric(Firsts(rest + [s]), m)
  {
    var samples := rest + [s];
    assert samples[..|rest|] == rest;
    OfMetricSnoc(rest, s, m);
    var more := if Repeated(rest, s) then [] else [s];
    assert Firsts(samples) == firsts + more;
    OfMetricConcat(firsts, more, m);
    OfMetricOfOne(s, m);
    if s.metric == m {
      SeenExactlyWhenRepeated(rest, s);
      KeptOfSnoc(same, s);
    } else {
      assert OfMetric(samples, m) == same;
      assert OfMetric(firsts, m) + [] == OfMetric(firsts, m);
    }
  }

  lemma OfMetricOfOne(s: Sample, m: Metric)
    ensures OfMetric([], m) == [] && OfMetric([s], m) == if s.metric == m then [s] else []
  {
    assert [s][..0] == [];
  }

  /** Among the earlier samples of its metric, a clean sample is found exactly when its series occurred. */
  lemma SeenExactlyWhenRepeated(rest: seq<Sample>, s: Sample)
    requires AllFit(rest) && Clean(s)
    ensures SeenBefore(OfMetric(rest, s.metric), s) <==> Repeated(rest, s)
  {
    var same := OfMetric(rest, s.metric);
    if i :| 0 <= i < |same| && SignatureOf(same[i]) == SignatureOf(s) {
      InOfMetric(rest, s.metric, same[i]);
      var k :| 0 <= k < |rest| && rest[k] == same[i];
      SignatureTellsSeries(rest[k], s);
    }
    if i :| 0 <= i < |rest| && SameSeries(rest[i], s) {
      InOfMetric(rest, s.metric, rest[i]);
      var k :| 0 <= k < |same| && same[k] == rest[i];
      SignatureTellsSeries(rest[i], s);
      assert SignatureOf(same[k]) == SignatureOf(s);
    }
  }

  function Emission(s: Sample): Emitted {
    Emitted(s.metric, LabelNames(s.metric), Values(s.labels), s.value)
  }

  function Emissions(samples: seq<Sample>): seq<Emitted> {
    seq(|samples|, i requires 0 <= i < |samples| => Emission(samples[i]))
  }

  // No offer is refused when every sample has the descriptor's label names.
  lemma {:induction false} OffersOfFitting(m: Metric, samples: seq<Sample>)
    requires AllFit(samples) && forall i :: 0 <= i < |samples| ==> samples[i].metric == m
    ensures Offers(m, LabelNames(m), samples) == Emissions(samples)
  {
    if samples != [] {
      var k := |samples| - 1;
      OffersOfFitting(m, samples[..k]);
      assert |samples[k].labels| == |Names(samples[k].labels)|;
      LabelNamesAreDistinct(m);
      assert Offer(m, LabelNames(m), samples[k]) == [Emission(samples[k])];
      assert Emissions(samples) == Emissions(samples[..k]) + [Emission(samples[k])];
    }
  }

  lemma KeptFit(samples: seq<Sample>, m: Metric)
    requires AllFit(samples) && forall i :: 0 <= i < |samples| ==> samples[i].metric == m
    ensures AllFit(Kept(samples)) && forall i :: 0 <= i < |Kept(samples)| ==> Kept(samples)[i].metric == m
  {
    KeptCoversSignatures(samples);
    forall i | 0 <= i < |Kept(samples)| ensures Fits(Kept(samples)[i]) && Kept(samples)[i].metric == m {
      assert Kept(samples)[i] in Kept(samples);
      var k :| 0 <= k < |samples| && samples[k] == Kept(samples)[i];
    }
  }

  lemma FitOfMetric(samples: seq<Sample>, m: Metric)
    requires AllFit(samples)
    ensures AllFit(OfMetric(samples, m)) && forall i :: 0 <= i < |OfMetric(samples, m)| ==> OfMetric(samples, m)[i].metric == m
  {
    forall i | 0 <= i < |OfMetric(samples, m)| ensures Fits(OfMetric(samples, m)[i]) && OfMetric(samples, m)[i].metric == m {
      InOfMetric(samples, m, OfMetric(samples, m)[i]);
    }
  }

  /** The descriptor made from the first sample of a metric is right for all of them, whatever texts they hold:
  every sample kept is offered, in order, under the label names of its metric, and none is refused. */
  lemma EveryKeptSampleIsOffered(snap: Snapshot, results: Results, m: Metric)
    requires IsSnapshotOf(snap, results) && AllFit(Flatten(results))
    ensures OffersOf(snap, m) == Emissions(Kept(snap.SamplesByName(m)))
  {
    var samples := snap.SamplesByName(m);
    assert samples == OfMetric(Flatten(results), m);
    FitOfMetric(Flatten(results), m);
    if samples != [] {
      KeptFit(samples, m);
      assert Names(samples[0].labels) == LabelNames(m);
      OffersOfFitting(m, Kept(samples));
    }
  }

  lemma {:induction false} FirstsAreSamples(samples: seq<Sample>, s: Sample)
    requires s in Firsts(samples)
    ensures s in samples
  {
    var k := |samples| - 1;
    assert samples == samples[..k] + [samples[k]];
    if s in Firsts(samples[..k]) {
      FirstsAreSamples(samples[..k], s);
    }
  }

  lemma OffersOfMetricExactly(snap: Snapshot, results: Results, m: Metric, e: Emitted)
    requires IsSnapshotOf(snap, results) && AllClean(Flatten(results))
    ensures e in OffersOf(snap, m) <==> exists s :: s in Firsts(Flatten(results)) && s.metric == m && e == Emission(s)
  {
    var samples := Flatten(results);
    EveryKeptSampleIsOffered(snap, results, m);
    KeptAreFirsts(samples, m);
    var kept := Kept(snap.SamplesByName(m));
    assert snap.SamplesByName(m) == OfMetric(samples, m);
    forall s ensures s in kept <==> s in Firsts(samples) && s.metric == m {
      InOfMetric(Firsts(samples), m, s);
    }
    InEmissions(kept, e);
  }

  lemma InEmissions(samples: seq<Sample>, e: Emitted)
    ensures e in Emissions(samples) <==> exists s :: s in samples && e == Emission(s)
  {
    if s :| s in samples && e == Emission(s) {
      var i :| 0 <= i < |samples| && samples[i] == s;
      assert Emissions(samples)[i] == e;
    }
  }

  lemma {:induction false} InByName(f: Metric -> seq<Emitted>, names: seq<Metric>, e: Emitted)
    ensures e in ByName(f, names) <==> exists m :: m in names && e in f(m)
  {
    if names != [] {
      InByName(f, names[..|names| - 1], e);
      assert names == names[..|names| - 1] + [names[|names| - 1]];
    }
  }

  lemma InCollected(snap: Snapshot, names: seq<Metric>, e: Emitted)
    ensures e in Collected(snap, names) <==> exists m :: m in names && e in OffersOf(snap, m)
  {
    InByName((m: Metric) => OffersOf(snap, m), names, e);
  }

  /** Prometheus is offered exactly the first sample of every series, under the label names of its
  metric: nothing else is dropped, whichever sample of a metric the descriptor was taken from. */
  lemma CollectOffersExactlyTheFirsts(snap: Snapshot, results: Results)
    requires IsSnapshotOf(snap, results) && AllClean(Flatten(results))
    ensures forall e :: e in Collected(snap, snap.names) <==> exists s :: s in Firsts(Flatten(results)) && e == Emission(s)
  {
    var samples := Flatten(results);
    forall e ensures e in Collected(snap, snap.names) <==> exists s :: s in Firsts(samples) && e == Emission(s) {
      InCollected(snap, snap.names, e);
      forall m { OffersOfMetricExactly(snap, results, m, e); }
      if s :| s in Firsts(samples) && e == Emission(s) {
        FirstsAreSamples(samples, s);
        InOfMetric(samples, s.metric, s);
        assert s.metric in snap.names && e in OffersOf(snap, s.metric);
      }
    }
  }

  // The first samples of `samples` cover it and are of different series.
  predicate CoverAndDiffer(firsts: seq<Sample>, samples: seq<Sample>) {
    && (forall i :: 0 <= i < |samples| ==> Repeated(firsts, samples[i]))
    && forall i, j :: 0 <= i < j < |firsts| ==> !SameSeries(firsts[i], firsts[j])
  }

  lemma RepeatedIsCovered(firsts: seq<Sample>, rest: seq<Sample>, s: Sample)
    requires CoverAndDiffer(firsts, rest) && Repeated(rest, s)
    ensures CoverAndDiffer(firsts, rest + [s])
  {
    var i :| 0 <= i < |rest| && SameSeries(rest[i], s);
    var k :| 0 <= k < |firsts| && SameSeries(firsts[k], rest[i]);
    assert SameSeries(firsts[k], s);
  }

  lemma NewIsFirst(firsts: seq<Sample>, rest: seq<Sample>, s: Sample)
    requires CoverAndDiffer(firsts, rest) && !Repeated(rest, s)
    requires forall f :: f in firsts ==> f in rest
    ensures CoverAndDiffer(firsts + [s], rest + [s])
  {
    var more := firsts + [s];
    forall i | 0 <= i < |rest + [s]| ensures Repeated(more, (rest + [s])[i]) {
      if i < |rest| {
        assert (rest + [s])[i] == rest[i] && Repeated(firsts, rest[i]);
        var k :| 0 <= k < |firsts| && SameSeries(firsts[k], rest[i]);
        assert SameSeries(more[k], rest[i]);
      } else {
        assert SameSeries(more[|firsts|], s);
      }
    }
    forall i | 0 <= i < |firsts| ensures !SameSeries(firsts[i], s) {
      assert firsts[i] in rest;
    }
  }

  /** Every sample's series is among the first samples, and these are of different series. */
  lemma {:induction false} FirstsCoverAndDiffer(samples: seq<Sample>)
    ensures CoverAndDiffer(Firsts(samples), samples)
  {
    if samples != [] {
      var k := |samples| - 1;
      var rest, s := samples[..k], samples[k];
      FirstsCoverAndDiffer(rest);
      assert samples == rest + [s];
      if Repeated(rest, s) {
        RepeatedIsCovered(Firsts(rest), rest, s);
        assert Firsts(samples) == Firsts(rest) + [] == Firsts(rest);
      } else {
        forall f | f in Firsts(rest) ensures f in rest {
          FirstsAreSamples(rest, f);
        }
        NewIsFirst(Firsts(rest), rest, s);
      }
    }
  }

  // The sample behind an offer, and the offer of a sample.
  lemma SampleOfOffer(snap: Snapshot, results: Results, e: Emitted) returns (s: Sample)
    requires IsSnapshotOf(snap, results) && AllFit(Flatten(results)) && e in Collected(snap, snap.names)
    ensures s in Flatten(results) && e == Emission(s)
  {
    InCollected(snap, snap.names, e);
    var m :| m in snap.names && e in OffersOf(snap, m);
    EveryKeptSampleIsOffered(snap, results, m);
    InEmissions(Kept(snap.SamplesByName(m)), e);
    KeptCoversSignatures(snap.SamplesByName(m));
    s :| s in Kept(snap.SamplesByName(m)) && e == Emission(s);
    InOfMetric(Flatten(results), m, s);
  }

  // Of the sample's own series where it is clean, and of its signature in any case.
  lemma OfferOfSample(snap: Snapshot, results: Results, s: Sample) returns (e: Emitted)
    requires IsSnapshotOf(snap, results) && AllFit(Flatten(results)) && s in Flatten(results)
    ensures e in Collected(snap, snap.names) && e.metric == s.metric && JoinNul(e.values) == JoinNul(Values(s.labels))
    ensures Clean(s) ==> e.values == Values(s.labels)
  {
    var samples := snap.SamplesByName(s.metric);
    InOfMetric(Flatten(results), s.metric, s);
    assert samples == OfMetric(Flatten(results), s.metric) && s in samples;
    KeptCoversSignatures(samples);
    var k := SampleOfSignature(Kept(samples), SignatureOf(s));
    EveryKeptSampleIsOffered(snap, results, s.metric);
    e := Emission(k);
    InEmissions(Kept(samples), e);
    InCollected(snap, snap.names, e);
    InOfMetric(Flatten(results), s.metric, k);
    if Clean(s) {
      SignatureTellsSeries(k, s);
    }
  }

  // ---------------------------------------------------------------- no series is offered twice

  predicate SameOffer(a: Emitted, b: Emitted) {
    a.metric == b.metric && a.values == b.values
  }

  predicate OfferedDistinctly(out: seq<Emitted>) {
    forall i, j :: 0 <= i < j < |out| ==> !SameOffer(out[i], out[j])
  }

  lemma {:induction false} KeptDiffer(samples: seq<Sample>, m: Metric)
    requires forall i :: 0 <= i < |samples| ==> samples[i].metric == m
    ensures forall s :: s in Kept(samples) ==> s in samples
    ensures forall i, j :: 0 <= i < j < |Kept(samples)| ==> Values(Kept(samples)[i].labels) != Values(Kept(samples)[j].labels)
  {
    if samples != [] {
      var k := |samples| - 1;
      KeptDiffer(samples[..k], m);
      var rest, last := Kept(samples[..k]), samples[k];
      assert samples == samples[..k] + [last];
      if !SeenBefore(samples[..k], last) {
        forall i | 0 <= i < |rest| ensures Values(rest[i].labels) != Values(last.labels) {
          assert rest[i] in samples[..k];
        }
      }
    }
  }

  lemma {:induction false} OffersDiffer(m: Metric, labelNames: seq<LabelName>, samples: seq<Sample>)
    requires forall i, j :: 0 <= i < j < |samples| ==> Values(samples[i].labels) != Values(samples[j].labels)
    ensures OfferedDistinctly(Offers(m, labelNames, samples))
    ensures forall e :: e in Offers(m, labelNames, samples) ==>
              e.metric == m && exists s :: s in samples && Values(s.labels) == e.values
  {
    if samples != [] {
      var k := |samples| - 1;
      OffersDiffer(m, labelNames, samples[..k]);
      assert samples == samples[..k] + [samples[k]];
      var rest := Offers(m, labelNames, samples[..k]);
      forall i | 0 <= i < |rest| ensures rest[i].values != Values(samples[k].labels) {
        assert rest[i] in rest;
        var s :| s in samples[..k] && Values(s.labels) == rest[i].values;
      }
    }
  }

  // Offers of one metric, of different values.
  predicate OffersApart(offers: seq<Emitted>, m: Metric) {
    OfferedDistinctly(offers) && forall i :: 0 <= i < |offers| ==> offers[i].metric == m
  }

  lemma {:induction false} ByNameDiffer(f: Metric -> seq<Emitted>, names: seq<Metric>)
    requires NoDuplicates(names) && forall m :: m in names ==> OffersApart(f(m), m)
    ensures OfferedDistinctly(ByName(f, names))
    ensures forall e :: e in ByName(f, names) ==> e.metric in names
  {
    if names != [] {
      var rest, more := ByName(f, names[..|names| - 1]), f(names[|names| - 1]);
      ByNameDiffer(f, names[..|names| - 1]);
      assert OffersApart(more, names[|names| - 1]);
      assert forall i :: 0 <= i < |rest| ==> rest[i] in rest;
      assert names[|names| - 1] !in names[..|names| - 1];
    }
  }

  lemma OffersOfAreApart(snap: Snapshot, m: Metric)
    requires m in snap.byName ==> forall i :: 0 <= i < |snap.byName[m]| ==> snap.byName[m][i].metric == m
    ensures OffersApart(OffersOf(snap, m), m)
  {
    var samples := snap.SamplesByName(m);
    if samples != [] {
      KeptDiffer(samples, m);
      OffersDiffer(m, Names(samples[0].labels), Kept(samples));
      assert forall i :: 0 <= i < |OffersOf(snap, m)| ==> OffersOf(snap, m)[i] in OffersOf(snap, m);
    }
  }

  /** No pair of metric and label values is ever offered twice, whatever the samples hold. */
  lemma NoSeriesIsOfferedTwice(snap: Snapshot, results: Results)
    requires IsSnapshotOf(snap, results)
    ensures OfferedDistinctly(Collected(snap, snap.names))
  {
    forall m, i | m in snap.byName && 0 <= i < |snap.byName[m]| ensures snap.byName[m][i].metric == m {
      InOfMetric(Flatten(results), m, snap.byName[m][i]);
    }
    forall m | m in snap.names ensures OffersApart(OffersOf(snap, m), m) {
      OffersOfAreApart(snap, m);
    }
    ByNameDiffer((m: Metric) => OffersOf(snap, m), snap.names);
  }

  // ---------------------------------------------------------------- clusters do not collide

  // Every entry's samples conform to the schema under the entry's own name.
  ghost predicate OwnSamples(results: Results) {
    forall i :: 0 <= i < |results| && results[i].Some? ==>
      exists id :: AllConform(results[i].value.samples, results[i].value.cluster, id)
  }

  /** Samples of differently named clusters are of different series, and neither is dropped for the other
  where the cluster names are NUL-free, whatever the other label values hold. */
  lemma ClustersNeverCollide(results: Results, a: nat, b: nat, s: Sample, t: Sample)
    requires OwnSamples(results)
    requires a < |results| && results[a].Some? && s in results[a].value.samples
    requires b < |results| && results[b].Some? && t in results[b].value.samples
    requires results[a].value.cluster != results[b].value.cluster
    ensures !SameSeries(s, t)
    ensures NoNul(results[a].value.cluster) && NoNul(results[b].value.cluster) ==> SignatureOf(s) != SignatureOf(t)
  {
    var c, d := results[a].value.cluster, results[b].value.cluster;
    var ida :| AllConform(results[a].value.samples, c, ida);
    var idb :| AllConform(results[b].value.samples, d, idb);
    assert Conforms(s, c, ida) && Conforms(t, d, idb);
    var x, y := Values(s.labels), Values(t.labels);
    assert |x| == |Names(s.labels)| >= 2 && |y| == |Names(t.labels)| >= 2;
    assert x[0] == c && y[0] == d;
    if NoNul(c) && NoNul(d) && JoinNul(x) == JoinNul(y) {
      SplitAtSeparator('\0', c, JoinRest(x[1..]), d, JoinRest(y[1..]));
    }
  }

  /** Samples built under the schema fit it, and are clean as far as their texts hold no NUL. */
  lemma {:induction false} OwnSamplesFit(results: Results)
    requires OwnSamples(results)
    ensures AllFit(Flatten(results))
  {
    if results != [] {
      var k := |results| - 1;
      assert forall i :: 0 <= i < k ==> results[..k][i] == results[i];
      OwnSamplesFit(results[..k]);
      if results[k].Some? {
        var samples := results[k].value.samples;
        var id :| AllConform(samples, results[k].value.cluster, id);
        assert forall i :: 0 <= i < |samples| ==> Conforms(samples[i], results[k].value.cluster, id);
      }
    }
  }

  lemma OwnSamplesAreClean(results: Results)
    requires OwnSamples(results)
    requires forall s :: s in Flatten(results) ==> NulFree(Values(s.labels))
    ensures AllClean(Flatten(results))
  {
    OwnSamplesFit(results);
  }
}
