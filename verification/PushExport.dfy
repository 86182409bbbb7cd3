/** The push exporter, and its agreement with what a scrape offers (internal/powerscale/otlp.go). */
module PushExport {
  import opened Wrappers
  import opened Strings
  import opened Paths
  import opened Metrics
  import opened Snapshots
  import opened Exporters

  datatype Observation = Observation(metric: Metric, attributes: seq<Label>, value: real)

  // What the instrument of a metric observes on a snapshot.
  function Observed(snap: Snapshot, m: Metric): seq<Observation> {
    var samples := snap.SamplesByName(m);
    seq(|samples|, i requires 0 <= i < |samples| => Observation(m, samples[i].labels, samples[i].value))
  }

  ghost function Elements(ms: seq<Metric>): set<Metric> {
    set m | m in ms
  }

  /** The push exporter: one instrument per metric name. */
  class OTLPExporter {
    var registered: set<Metric>
    var instruments: seq<Metric>

    ghost predicate Valid()
      reads this
    {
      NoDuplicates(instruments) && forall m :: m in instruments <==> m in registered
    }

    constructor ()
      ensures Valid() && registered == {}
    {
      registered, instruments := {}, [];
    }

    /** Registers an instrument for every metric of the snapshot that has none, in the order of the names,
    stopping at the first the library refuses: what came before it stays registered, nothing is registered
    twice, so a later call takes up where this one stopped. */
    method EnsureInstruments(snap: Snapshot, refused: set<Metric>) returns (failed: Option<Metric>, ghost reached: nat)
      requires Valid()
      modifies this
      ensures Valid()
      ensures old(instruments) <= instruments
      ensures reached <= |snap.names| && registered == old(registered) + Elements(snap.names[..reached])
      ensures failed.None? ==> reached == |snap.names|
      ensures failed.Some? ==> reached < |snap.names| && failed.value == snap.names[reached]
      ensures failed.Some? ==> failed.value in refused && failed.value !in registered
      ensures failed.None? <==> forall m :: m in snap.names && m !in old(registered) ==> m !in refused
    {
      reached := 0;
      for i := 0 to |snap.names|
        invariant reached == i && Valid() && old(instruments) <= instruments
        invariant registered == old(registered) + Elements(snap.names[..i])
        invariant forall m :: m in registered ==> m in old(registered) || m !in refused
      {
        var m := snap.names[i];
        assert Elements(snap.names[..i + 1]) == Elements(snap.names[..i]) + {m};
        if m in registered {
          reached := i + 1;
          continue;
        }
        if m in refused {
          return Some(m), i;
        }
        instruments := instruments + [m];
        registered := registered + {m};
        reached := i + 1;
      }
      assert snap.names[..|snap.names|] == snap.names;
      assert forall m :: m in snap.names ==> m in Elements(snap.names);
      return None, |snap.names|;
    }

    // One export, all callbacks reading the same snapshot.
    method Export(snap: Snapshot) returns (out: seq<Observation>)
      ensures forall o :: o in out <==> exists m :: m in instruments && o in Observed(snap, m)
    {
      out := [];
      for i := 0 to |instruments|
        invariant forall o :: o in out <==> exists k :: 0 <= k < i && o in Observed(snap, instruments[k])
      {
        out := out + Observed(snap, instruments[i]);
      }
    }
  }

  ghost predicate Exports(out: seq<Observation>, instruments: set<Metric>, snap: Snapshot) {
    forall o :: o in out <==> exists m :: m in instruments && o in Observed(snap, m)
  }

  lemma ObservedAreSamples(snap: Snapshot, results: Results, m: Metric, o: Observation)
    requires IsSnapshotOf(snap, results)
    ensures o in Observed(snap, m) <==> exists s :: s in Flatten(results) && s.metric == m && o == Observation(m, s.labels, s.value)
  {
    var samples := snap.SamplesByName(m);
    assert samples == OfMetric(Flatten(results), m);
    if o in Observed(snap, m) {
      var i :| 0 <= i < |samples| && Observed(snap, m)[i] == o;
      InOfMetric(Flatten(results), m, samples[i]);
    }
    if s :| s in Flatten(results) && s.metric == m && o == Observation(m, s.labels, s.value) {
      InOfMetric(Flatten(results), m, s);
      var i :| 0 <= i < |samples| && samples[i] == s;
      assert Observed(snap, m)[i] == o;
    }
  }

  // The sample behind an observation.
  lemma SampleOfObservation(snap: Snapshot, results: Results, instruments: set<Metric>, pushed: seq<Observation>, o: Observation)
    returns (s: Sample)
    requires IsSnapshotOf(snap, results) && Exports(pushed, instruments, snap) && o in pushed
    ensures s in Flatten(results) && o == Observation(s.metric, s.labels, s.value)
  {
    var m :| m in instruments && o in Observed(snap, m);
    ObservedAreSamples(snap, results, m, o);
    s :| s in Flatten(results) && s.metric == m && o == Observation(m, s.labels, s.value);
  }

  lemma ObservationOfSample(snap: Snapshot, results: Results, instruments: set<Metric>, pushed: seq<Observation>, s: Sample)
    requires IsSnapshotOf(snap, results) && Exports(pushed, instruments, snap) && s in Flatten(results)
    requires forall m :: m in snap.names ==> m in instruments
    ensures Observation(s.metric, s.labels, s.value) in pushed
  {
    ObservedAreSamples(snap, results, s.metric, Observation(s.metric, s.labels, s.value));
    InOfMetric(Flatten(results), s.metric, s);
    assert s.metric in snap.names;
  }

  predicate SamePoint(o: Observation, e: Emitted) {
    e.metric == o.metric && e.values == Values(o.attributes)
  }

  // The signatures agree, and the series too where the values hold no NUL.
  predicate SameSignature(o: Observation, e: Emitted) {
    e.metric == o.metric && JoinNul(e.values) == JoinNul(Values(o.attributes))
  }

  predicate Matches(o: Observation, e: Emitted) {
    SameSignature(o, e) && (NulFree(Values(o.attributes)) ==> SamePoint(o, e))
  }

  /** The two exporters agree: when every metric of the snapshot has an instrument, every series offered to
  Prometheus is pushed, with the value offered, and every series pushed is offered unless its label values
  hold a NUL: then one of the same signature is. */
  lemma ExportersAgree(snap: Snapshot, results: Results, instruments: set<Metric>, pushed: seq<Observation>)
    requires IsSnapshotOf(snap, results) && AllFit(Flatten(results))
    requires forall m :: m in snap.names ==> m in instruments
    requires Exports(pushed, instruments, snap)
    ensures forall e :: e in Collected(snap, snap.names) ==> exists o :: o in pushed && SamePoint(o, e) && e.value == o.value
    ensures forall o :: o in pushed ==>
              exists e :: e in Collected(snap, snap.names) && Matches(o, e)
  {
    forall o | o in pushed
      ensures exists e :: e in Collected(snap, snap.names) && Matches(o, e)
    {
      var s := SampleOfObservation(snap, results, instruments, pushed, o);
      var e := OfferOfSample(snap, results, s);
      assert Matches(o, e);
    }
    forall e | e in Collected(snap, snap.names)
      ensures exists o :: o in pushed && SamePoint(o, e) && e.value == o.value
    {
      var s := SampleOfOffer(snap, results, e);
      ObservationOfSample(snap, results, instruments, pushed, s);
      assert SamePoint(Observation(s.metric, s.labels, s.value), e);
    }
  }

  /** When no series repeats, the values agree as well. */
  lemma ValuesAgreeWithoutRepeats(snap: Snapshot, results: Results, instruments: set<Metric>, pushed: seq<Observation>,
                                  o: Observation, e: Emitted)
    requires IsSnapshotOf(snap, results) && AllFit(Flatten(results)) && Exports(pushed, instruments, snap)
    requires forall s, t :: s in Flatten(results) && t in Flatten(results) && SameSeries(s, t) ==> s == t
    requires o in pushed && e in Collected(snap, snap.names) && SamePoint(o, e)
    ensures e.value == o.value
  {
    var s := SampleOfObservation(snap, results, instruments, pushed, o);
    var t := SampleOfOffer(snap, results, e);
    assert SameSeries(s, t);
  }

  /** Registration, a push and a scrape of one snapshot: unless the library refuses an instrument, both
  exporters hand out the same series, as far as their label values hold no NUL. */
  method PushAndScrape(exporter: OTLPExporter, snap: Snapshot, refused: set<Metric>, ghost results: Results)
    returns (failed: Option<Metric>, pushed: seq<Observation>, offered: seq<Emitted>)
    requires exporter.Valid()
    requires IsSnapshotOf(snap, results) && AllFit(Flatten(results))
    modifies exporter
    ensures exporter.Valid()
    ensures failed.Some? ==> failed.value in refused
    ensures failed.None? ==> forall e :: e in offered ==> exists o :: o in pushed && SamePoint(o, e) && e.value == o.value
    ensures failed.None? ==> forall o :: o in pushed ==> exists e :: e in offered && Matches(o, e)
  {
    ghost var reached;
    failed, reached := exporter.EnsureInstruments(snap, refused);
    pushed := exporter.Export(snap);
    forall m, i | m in snap.byName && 0 <= i < |snap.byName[m]| ensures snap.byName[m][i].metric == m {
      InOfMetric(Flatten(results), m, snap.byName[m][i]);
    }
    var health;
    health, offered := Collect(snap);
    if failed.None? {
      assert snap.names[..reached] == snap.names;
      assert forall m :: m in snap.names ==> m in Elements(snap.names) && m in exporter.registered;
      assert Exports(pushed, exporter.registered, snap);
      ExportersAgree(snap, results, exporter.registered, pushed);
    }
  }
}
