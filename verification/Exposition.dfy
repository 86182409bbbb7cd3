/** A whole scrape as its reader sees it: the health of the clusters and the samples kept, by exported name
(internal/powerscale/prometheus.go). */
module Exposition {
  import opened Paths
  import opened Metrics
  import opened MetricNames
  import opened Snapshots
  import opened Exporters

  function HealthText(h: Health): string {
    match h
    case Up(_, _) => "powerscale_up"
    case LastScrape(_, _) => "powerscale_last_scrape_timestamp_seconds"
    case ApiVersion(_, _) => "powerscale_cluster_api_version"
  }

  // One line of the exposition, without its value.
  datatype Point = Point(name: string, values: seq<string>)

  function HealthPoints(health: seq<Health>): seq<Point> {
    seq(|health|, i requires 0 <= i < |health| => Point(HealthText(health[i]), [health[i].cluster]))
  }

  function OfferPoints(out: seq<Emitted>): seq<Point> {
    seq(|out|, i requires 0 <= i < |out| => Point(Text(out[i].metric), out[i].values))
  }

  // ---------------------------------------------------------------- health and samples share no name

  lemma UpIsNoMetric(h: Health)
    requires h.Up?
    ensures Text(Recognised(HealthText(h))) != HealthText(h)
  {
    assert |HealthText(h)| == 13;
    assert |Text(NfsExports)| == 22;
  }

  lemma LastScrapeIsNoMetric(h: Health)
    requires h.LastScrape?
    ensures Text(Recognised(HealthText(h))) != HealthText(h)
  {
    assert |HealthText(h)| == 40 && HealthText(h)[39] == 's';
    assert Text(QuotaApplicationUsage)[38] == 'e' && HealthText(h)[38] == 'd';
  }

  lemma ApiVersionIsNoMetric(h: Health)
    requires h.ApiVersion?
    ensures Text(Recognised(HealthText(h))) != HealthText(h)
  {
    assert |HealthText(h)| == 30 && HealthText(h)[27] == 'i';
    assert Text(NodePowerSupplies)[29] == 's' && HealthText(h)[29] == 'n';
  }

  lemma HealthIsNoMetric(h: Health, m: Metric)
    ensures HealthText(h) != Text(m)
  {
    TextIsRecognised(m);
    match h
    case Up(_, _) => UpIsNoMetric(h);
    case LastScrape(_, _) => LastScrapeIsNoMetric(h);
    case ApiVersion(_, _) => ApiVersionIsNoMetric(h);
  }

  lemma HealthNamesDiffer(a: Health, b: Health)
    requires HealthText(a) == HealthText(b) && a.cluster == b.cluster
    ensures SameHealth(a, b)
  {
    assert |HealthText(a)| == |HealthText(b)|;
  }

  lemma HealthPointsDiffer(health: seq<Health>)
    requires HealthOnce(health)
    ensures NoDuplicates(HealthPoints(health))
  {
    forall i, j | 0 <= i < j < |health| ensures HealthPoints(health)[i] != HealthPoints(health)[j] {
      if HealthPoints(health)[i] == HealthPoints(health)[j] {
        assert [health[i].cluster][0] == [health[j].cluster][0];
        HealthNamesDiffer(health[i], health[j]);
      }
    }
  }

  lemma OfferPointsDiffer(out: seq<Emitted>)
    requires OfferedDistinctly(out)
    ensures NoDuplicates(OfferPoints(out))
  {
    forall i, j | 0 <= i < j < |out| ensures OfferPoints(out)[i] != OfferPoints(out)[j] {
      if OfferPoints(out)[i] == OfferPoints(out)[j] {
        TextIsInjective(out[i].metric, out[j].metric);
        assert SameOffer(out[i], out[j]);
      }
    }
  }

  /** No exported name and label values are offered twice in a scrape, among health and samples together, whatever
  the samples hold. */
  lemma NothingIsOfferedTwice(snap: Snapshot, results: Results, health: seq<Health>)
    requires IsSnapshotOf(snap, results) && IsHealthOf(health, snap, snap.perCluster.Keys)
    ensures NoDuplicates(HealthPoints(health) + OfferPoints(Collected(snap, snap.names)))
  {
    var out := Collected(snap, snap.names);
    NoSeriesIsOfferedTwice(snap, results);
    HealthPointsDiffer(health);
    OfferPointsDiffer(out);
    forall i, j | 0 <= i < |health| && 0 <= j < |out| ensures HealthPoints(health)[i] != OfferPoints(out)[j] {
      HealthIsNoMetric(health[i], out[j].metric);
    }
  }

  lemma HealthOfCluster(snap: Snapshot, health: seq<Health>, h: Health)
    requires IsHealthOf(health, snap, snap.perCluster.Keys)
    ensures h in health <==> h.cluster in snap.perCluster && h in HealthOf(h.cluster, snap.perCluster[h.cluster])
  {
    if h in health {
      var name :| name in snap.perCluster && h in HealthOf(name, snap.perCluster[name]);
      OwnHealth(name, snap.perCluster[name], h);
    }
  }

  lemma OwnHealth(name: string, cs: ClusterSnapshot, h: Health)
    ensures h in HealthOf(name, cs) <==>
              match h
              case Up(c, v) => c == name && v == if cs.up then 1.0 else 0.0
              case LastScrape(c, time) => c == name && cs.up && time != 0 && time == cs.lastScrape
              case ApiVersion(c, v) => c == name && v > 0 && v == cs.apiVersion
  {
  }

  /** The health offered is the state of the entries: up or not for every cluster in the snapshot, the time of the
  last scrape for those that are up, the API version where it is known, and nothing else. */
  lemma HealthTellsTheEntries(snap: Snapshot, health: seq<Health>, h: Health)
    requires IsHealthOf(health, snap, snap.perCluster.Keys)
    ensures h in health <==>
              && h.cluster in snap.perCluster
              && var cs := snap.perCluster[h.cluster];
                 match h
                 case Up(_, v) => v == if cs.up then 1.0 else 0.0
                 case LastScrape(_, time) => cs.up && time != 0 && time == cs.lastScrape
                 case ApiVersion(_, v) => v > 0 && v == cs.apiVersion
  {
    HealthOfCluster(snap, health, h);
    if h.cluster in snap.perCluster {
      OwnHealth(h.cluster, snap.perCluster[h.cluster], h);
    }
  }

  /** The names of the health series. */
  lemma HealthNamesAsWritten(h: Health)
    ensures HealthText(h) == "powerscale_up" <==> h.Up?
    ensures HealthText(h) == "powerscale_last_scrape_timestamp_seconds" <==> h.LastScrape?
    ensures HealthText(h) == "powerscale_cluster_api_version" <==> h.ApiVersion?
  {
    assert |HealthText(h)| == match h case Up(_, _) => 13 case LastScrape(_, _) => 40 case ApiVersion(_, _) => 30;
  }
}
