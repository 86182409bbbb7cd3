/** A quota a scrape loses (internal/powerscale/derivations.go, internal/powerscale/prometheus.go). */
module LostQuota {
  import opened Wrappers
  import opened Strings
  import opened Metrics
  import opened Inventory
  import opened Derivations
  import opened SampleBlocks
  import opened Signatures
  import opened Snapshots
  import opened Collection
  import opened Exporters
  import opened EndToEnd
  import FreeTexts

  // ---------------------------------------------------------------- the samples before the first quota

  lemma {:induction false} FlatMapNoneOf<T>(rows: seq<T>, f: T -> seq<Sample>, family: Family)
    requires forall i :: 0 <= i < |rows| ==> NoneOf(f(rows[i]), family)
    ensures NoneOf(FlatMap(rows, f), family)
  {
    if rows != [] {
      FlatMapNoneOf(rows[..|rows| - 1], f, family);
    }
  }

  lemma NoQuotasInStatistics(table: map<string, StatKeySpec>, c: string, inv: Inventory, st: Option<Statistics>)
    requires AllWellScoped(table)
    ensures NoneOf(StatisticsSamples(table, c, inv, st), PerQuota)
  {
    if st.Some? {
      FlatMapNoneOf(st.value.current, StatRow(table, c, inv.guid, LnnByDevId(inv.nodes)), PerQuota);
    }
  }

  lemma {:induction false} FlatMapFromFirst<T>(rows: seq<T>, f: T -> seq<Sample>)
    requires rows != []
    ensures FlatMap(rows, f) == f(rows[0]) + FlatMap(rows[1..], f)
  {
    var k := |rows| - 1;
    if k == 0 {
      assert rows[..0] == [] && rows[1..] == [];
    } else {
      FlatMapFromFirst(rows[..k], f);
      assert rows[..k][1..] == rows[1..][..k - 1];
      assert FlatMap(rows[1..], f) == FlatMap(rows[1..][..k - 1], f) + f(rows[k]);
    }
  }

  // The samples of a report: statistics, the first quota's, and the rest.
  lemma FirstQuotaStands(table: map<string, StatKeySpec>, c: string, r: Report) returns (rest: seq<Sample>)
    requires |r.order.drives| == |r.inventory.nodes| && r.inventory.quotas != []
    ensures Samples(table, c, r.inventory, r.statistics, r.order) ==
              StatisticsSamples(table, c, r.inventory, r.statistics)
              + QuotaRow(c, r.inventory.guid)(r.inventory.quotas[0]) + rest
  {
    var quotas, f := r.inventory.quotas, QuotaRow(c, r.inventory.guid);
    UsageStands(table, c, r.inventory, r.statistics, r.order);
    FlatMapFromFirst(quotas, f);
    rest := FirstOf(Samples(table, c, r.inventory, r.statistics, r.order), StatisticsSamples(table, c, r.inventory, r.statistics),
                    f(quotas[0]), FlatMap(quotas[1..], f));
  }

  lemma FirstOf(all: seq<Sample>, pre: seq<Sample>, first: seq<Sample>, others: seq<Sample>) returns (rest: seq<Sample>)
    requires Within(all, pre, first + others)
    ensures all == pre + first + rest
  {
    var post :| all == pre + (first + others) + post;
    rest := others + post;
    assert pre + (first + others) + post == pre + first + (others + post);
  }

  // ---------------------------------------------------------------- among all clusters

  lemma {:induction false} FlattenStarts(results: Results, n: nat)
    requires n <= |results|
    ensures Flatten(results[..n]) <= Flatten(results)
  {
    if n == |results| {
      assert results[..n] == results;
    } else {
      var k := |results| - 1;
      FlattenStarts(results[..k], n);
      assert results[..k][..n] == results[..n];
    }
  }

  // The samples of all clusters: those before cluster `a`, its own, and the others.
  lemma ClusterStands(answers: seq<Answers>, a: nat) returns (post: seq<Sample>)
    requires a < |answers|
    ensures Flatten(Entries(answers)) == Flatten(Entries(answers[..a])) + Entry(answers[a]).samples + post
  {
    var results := Entries(answers);
    FlattenStarts(results, a + 1);
    assert results[..a + 1][..a] == results[..a] == Entries(answers[..a]);
    assert Flatten(results[..a + 1]) == Flatten(Entries(answers[..a])) + Entry(answers[a]).samples;
    post := Flatten(results)[|Flatten(results[..a + 1])|..];
  }

  // Samples of other clusters are of other series.
  lemma OthersAreOfOtherSeries(table: map<string, StatKeySpec>, answers: seq<Answers>, reports: seq<Option<Report>>,
                               a: nat, x: Sample)
    requires AllWellScoped(table) && AllBuiltFrom(table, answers, reports) && a < |answers|
    requires forall b :: 0 <= b < a ==> answers[b].name != answers[a].name
    requires Values(x.labels) != [] && Values(x.labels)[0] == answers[a].name
    ensures forall s :: s in Flatten(Entries(answers[..a])) ==> !SameSeries(s, x)
  {
    forall s | s in Flatten(Entries(answers[..a])) ensures !SameSeries(s, x) {
      var b := SampleOfAnAnswer(answers[..a], s);
      EntryOwnsItsSamples(table, answers[b], reports[b]);
      var id :| AllConform(Entry(answers[b]).samples, answers[b].name, id);
      var i :| 0 <= i < |Entry(answers[b]).samples| && Entry(answers[b]).samples[i] == s;
      assert Conforms(s, answers[b].name, id);
      assert Values(s.labels)[0] == answers[b].name;
    }
  }

  function UsageValues(c: string, id: string, q: Quota): seq<string> {
    Values(QuotaLabels(c, id, q.id, q.path, q.kind))
  }

  /** No usage of the same signature as the first quota's, but of another series, is offered, whatever else the
  clusters report and whatever orders their maps are visited in. */
  lemma FirstQuotaHides(table: map<string, StatKeySpec>, answers: seq<Answers>, reports: seq<Option<Report>>, snap: Snapshot,
                        a: nat, x: Sample, e: Emitted)
    requires AllWellScoped(table) && AllBuiltFrom(table, answers, reports) && IsSnapshotOf(snap, Entries(answers))
    requires a < |answers| && Entry(answers[a]).up && reports[a].Some? && reports[a].value.inventory.quotas != []
    requires forall b :: 0 <= b < a ==> answers[b].name != answers[a].name
    requires var inv := reports[a].value.inventory;
             var usage := UsageValues(answers[a].name, inv.guid, inv.quotas[0]);
             && x.metric == QuotaUsage && Values(x.labels) != [] && Values(x.labels)[0] == answers[a].name
             && JoinNul(usage) == JoinNul(Values(x.labels)) && usage != Values(x.labels)
    requires e in Collected(snap, snap.names) && e.metric == QuotaUsage
    ensures e.values != Values(x.labels)
  {
    var before := Flatten(Entries(answers[..a]));
    var post := ClusterStands(answers, a);
    OthersAreOfOtherSeries(table, answers, reports, a, x);
    var c, inv := answers[a].name, reports[a].value.inventory;
    FirstQuotaLeads(table, c, reports[a].value, x);
    HiddenAmong(before, Entry(answers[a]).samples, post, x, UsageValues(c, inv.guid, inv.quotas[0]));
    NotOffered(table, answers, reports, snap, x, e);
  }

  // A row of the rival comes before any sample of the series.
  ghost predicate LedBy(all: seq<Sample>, x: Sample, values: seq<string>) {
    exists pre, row, rest ::
      all == pre + row + rest && (forall s :: s in pre ==> !SameSeries(s, x)) && Yields(row, x.metric, values)
  }

  lemma FirstQuotaLeads(table: map<string, StatKeySpec>, c: string, r: Report, x: Sample)
    requires AllWellScoped(table) && |r.order.drives| == |r.inventory.nodes| && r.inventory.quotas != []
    requires x.metric == QuotaUsage
    ensures LedBy(Samples(table, c, r.inventory, r.statistics, r.order), x, UsageValues(c, r.inventory.guid, r.inventory.quotas[0]))
  {
    var rest := FirstQuotaStands(table, c, r);
    NoQuotasInStatistics(table, c, r.inventory, r.statistics);
    NoneOfIsNoSeries(StatisticsSamples(table, c, r.inventory, r.statistics), x);
    FirstQuotaYields(c, r.inventory.guid, r.inventory.quotas[0]);
  }

  lemma HiddenAmong(before: seq<Sample>, all: seq<Sample>, post: seq<Sample>, x: Sample, values: seq<string>)
    requires LedBy(all, x, values) && forall s :: s in before ==> !SameSeries(s, x)
    requires values != Values(x.labels) && JoinNul(values) == JoinNul(Values(x.labels))
    ensures !Repeated(Kept(OfMetric(before + all + post, x.metric)), x)
  {
    var pre, row, rest :|
      all == pre + row + rest && (forall s :: s in pre ==> !SameSeries(s, x)) && Yields(row, x.metric, values);
    FiveParts(before, pre, row, rest, post);
    NotKeptBehindRival(before + pre, row, rest + post, x, values);
  }

  lemma FirstQuotaYields(c: string, id: string, q: Quota)
    ensures Yields(QuotaRow(c, id)(q), QuotaUsage, UsageValues(c, id, q))
  {
    FreeTexts.SharedYields(QuotaLabels(c, id, q.id, q.path, q.kind), QuotaValues(q), QuotaUsage, 0);
  }

  lemma FiveParts(a: seq<Sample>, b: seq<Sample>, d: seq<Sample>, e: seq<Sample>, f: seq<Sample>)
    ensures a + (b + d + e) + f == (a + b) + d + (e + f)
  {
  }

  // What is not kept is not offered.
  lemma NotOffered(table: map<string, StatKeySpec>, answers: seq<Answers>, reports: seq<Option<Report>>, snap: Snapshot,
                   x: Sample, e: Emitted)
    requires AllWellScoped(table) && AllBuiltFrom(table, answers, reports) && IsSnapshotOf(snap, Entries(answers))
    requires !Repeated(Kept(OfMetric(Flatten(Entries(answers)), x.metric)), x)
    requires e in Collected(snap, snap.names) && e.metric == x.metric
    ensures e.values != Values(x.labels)
  {
    var results := Entries(answers);
    EntriesOwnTheirSamples(table, answers, reports);
    OwnSamplesFit(results);
    InCollected(snap, snap.names, e);
    var m :| m in snap.names && e in OffersOf(snap, m);
    EveryKeptSampleIsOffered(snap, results, m);
    OffersAreOfMetric(snap, results, m, e);
    assert snap.SamplesByName(m) == OfMetric(Flatten(results), m);
    NotEmitted(OfMetric(Flatten(results), m), x, e);
  }

  lemma OffersAreOfMetric(snap: Snapshot, results: Results, m: Metric, e: Emitted)
    requires IsSnapshotOf(snap, results) && e in OffersOf(snap, m)
    ensures e.metric == m
  {
    if m in snap.byName {
      forall i | 0 <= i < |snap.byName[m]| ensures snap.byName[m][i].metric == m {
        InOfMetric(Flatten(results), m, snap.byName[m][i]);
      }
    }
    OffersOfAreApart(snap, m);
  }

  lemma NotEmitted(samples: seq<Sample>, x: Sample, e: Emitted)
    requires !Repeated(Kept(samples), x) && e in Emissions(Kept(samples)) && e.metric == x.metric
    ensures e.values != Values(x.labels)
  {
    InEmissions(Kept(samples), e);
    var k :| k in Kept(samples) && e == Emission(k);
    var i :| 0 <= i < |Kept(samples)| && Kept(samples)[i] == k;
  }

  /** A scrape loses a quota: where a cluster's first quota has the id "a\0b" and the path "p", the usage of another
  quota of it with the id "a" and the path "b\0p" is never offered, whatever else the clusters report. */
  lemma QuotaWithNulIsLost(table: map<string, StatKeySpec>, answers: seq<Answers>, reports: seq<Option<Report>>, snap: Snapshot,
                           a: nat, e: Emitted)
    requires AllWellScoped(table) && AllBuiltFrom(table, answers, reports) && IsSnapshotOf(snap, Entries(answers))
    requires a < |answers| && Entry(answers[a]).up && reports[a].Some? && reports[a].value.inventory.quotas != []
    requires forall b :: 0 <= b < a ==> answers[b].name != answers[a].name
    requires var q := reports[a].value.inventory.quotas[0]; q.id == "a\0b" && q.path == "p"
    requires e in Collected(snap, snap.names) && e.metric == QuotaUsage
    ensures e.values != [answers[a].name, reports[a].value.inventory.guid, "a", "b\0p", reports[a].value.inventory.quotas[0].kind]
  {
    var c, inv := answers[a].name, reports[a].value.inventory;
    var q := inv.quotas[0];
    var x := Sample(QuotaUsage, QuotaLabels(c, inv.guid, "a", "b\0p", q.kind), 0.0);
    QuotasShareSignature(c, inv.guid, q.kind);
    FirstQuotaHides(table, answers, reports, snap, a, x, e);
  }

  lemma QuotasShareSignature(c: string, id: string, kind: string)
    ensures JoinNul([c, id, "a\0b", "p", kind]) == JoinNul([c, id, "a", "b\0p", kind])
    ensures [c, id, "a\0b", "p", kind] != [c, id, "a", "b\0p", kind]
  {
    var x, y := [c, id, "a\0b", "p", kind], [c, id, "a", "b\0p", kind];
    BoundaryIsLost([c, id], "a\0b", "p", "a", "b\0p", [kind]);
    assert x == [c, id] + ["a\0b", "p"] + [kind] && y == [c, id] + ["a", "b\0p"] + [kind];
    assert JoinNul(x) == JoinRest(x)[1..] && JoinNul(y) == JoinRest(y)[1..];
    assert |x[2]| != |y[2]|;
  }
}
