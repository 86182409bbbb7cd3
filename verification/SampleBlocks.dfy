/** The samples of a cluster builder by builder, and where a series of one builder is lost behind another
(internal/powerscale/derivations.go, internal/powerscale/prometheus.go). */
module SampleBlocks {
  import opened Wrappers
  import opened Strings
  import opened Metrics
  import opened Inventory
  import opened Derivations
  import opened Exporters

  // ---------------------------------------------------------------- where a builder's samples stand

  // `pre` and then `part` start `all`.
  ghost predicate Within(all: seq<Sample>, pre: seq<Sample>, part: seq<Sample>) {
    exists post :: all == pre + part + post
  }

  lemma WithinIs(pre: seq<Sample>, part: seq<Sample>, post: seq<Sample>)
    ensures Within(pre + part + post, pre, part) && Within(pre + part, pre, part)
  {
    assert pre + part == pre + part + [];
  }

  lemma WithinPart(all: seq<Sample>, before: seq<Sample>, group: seq<Sample>, pre: seq<Sample>, part: seq<Sample>)
    requires Within(all, before, group) && Within(group, pre, part)
    ensures Within(all, before + pre, part)
  {
    var after :| all == before + group + after;
    var post :| group == pre + part + post;
    assert all == (before + pre) + part + (post + after);
  }

  lemma GroupsOfSamples(table: map<string, StatKeySpec>, c: string, inv: Inventory, st: Option<Statistics>, o: Order)
    requires |o.drives| == |inv.nodes|
    ensures var all, usage := Samples(table, c, inv, st, o), UsageSamples(table, c, inv, st);
            var nodes, resources := NodeSamples(c, inv, o.drives), ResourceSamples(c, inv, o.events);
            && Within(all, [], usage) && Within(all, usage, nodes) && Within(all, usage + nodes, resources)
            && Within(all, usage + nodes + resources, PerformanceSamples(c, inv.guid, st))
  {
    FourGroups(UsageSamples(table, c, inv, st), NodeSamples(c, inv, o.drives), ResourceSamples(c, inv, o.events),
               PerformanceSamples(c, inv.guid, st));
  }

  lemma FourGroups(a: seq<Sample>, b: seq<Sample>, d: seq<Sample>, e: seq<Sample>)
    ensures Within(a + b + d + e, [], a) && Within(a + b + d + e, a, b) && Within(a + b + d + e, a + b, d)
    ensures Within(a + b + d + e, a + b + d, e)
  {
    var all := a + b + d + e;
    assert all == [] + a + (b + d + e);
    assert all == a + b + (d + e);
    assert all == (a + b) + d + e;
    assert all == (a + b + d) + e + [];
  }

  lemma UsageStands(table: map<string, StatKeySpec>, c: string, inv: Inventory, st: Option<Statistics>, o: Order)
    requires |o.drives| == |inv.nodes|
    ensures var all, stat := Samples(table, c, inv, st, o), StatisticsSamples(table, c, inv, st);
            var quotas, counts := FlatMap(inv.quotas, QuotaRow(c, inv.guid)), CountSamples(c, inv.guid, inv.counts);
            Within(all, stat, quotas) && Within(all, stat + quotas + counts, ProtoSamples(c, inv.guid, st))
  {
    var all, stat := Samples(table, c, inv, st, o), StatisticsSamples(table, c, inv, st);
    var quotas, counts := FlatMap(inv.quotas, QuotaRow(c, inv.guid)), CountSamples(c, inv.guid, inv.counts);
    var usage, proto := UsageSamples(table, c, inv, st), ProtoSamples(c, inv.guid, st);
    GroupsOfSamples(table, c, inv, st, o);
    FourGroups(stat, quotas, counts, proto);
    WithinPart(all, [], usage, stat, quotas);
    WithinPart(all, [], usage, stat + quotas + counts, proto);
    FromNothing(stat);
    FromNothing(stat + quotas + counts);
  }

  lemma FromNothing(a: seq<Sample>)
    ensures [] + a == a && a + [] == a
  {
  }

  // No sample is of the family.
  predicate NoneOf(samples: seq<Sample>, f: Family) {
    forall i :: 0 <= i < |samples| ==> FamilyOf(samples[i].metric) != f
  }

  lemma NoneOfBoth(a: seq<Sample>, b: seq<Sample>, f: Family)
    requires NoneOf(a, f) && NoneOf(b, f)
    ensures NoneOf(a + b, f)
  {
  }

  // ---------------------------------------------------------------- a series lost behind another

  // A row has samples of the metric, all with these label values.
  ghost predicate Yields(row: seq<Sample>, m: Metric, values: seq<string>) {
    && (exists s :: s in row && s.metric == m)
    && forall s :: s in row && s.metric == m ==> Values(s.labels) == values
  }

  // `samples` has the series of `x`, and deduplication keeps none of it.
  ghost predicate Loses(samples: seq<Sample>, x: Sample) {
    Repeated(samples, x) && !Repeated(Kept(OfMetric(samples, x.metric)), x)
  }

  /** Where the row of a rival of the same signature comes before any sample of the series, none of it is kept. */
  lemma NotKeptBehindRival(pre: seq<Sample>, rival: seq<Sample>, rest: seq<Sample>, x: Sample, values: seq<string>)
    requires forall s :: s in pre ==> !SameSeries(s, x)
    requires Yields(rival, x.metric, values) && values != Values(x.labels) && JoinNul(values) == JoinNul(Values(x.labels))
    ensures !Repeated(Kept(OfMetric(pre + rival + rest, x.metric)), x)
  {
    var m := x.metric;
    var before, after := OfMetric(pre + rival, m), OfMetric(rest, m);
    OfMetricConcat(pre + rival, rest, m);
    forall s | s in before ensures !SameSeries(s, x) {
      InOfMetric(pre + rival, m, s);
    }
    var y :| y in rival && y.metric == m;
    InOfMetric(pre + rival, m, y);
    var i :| 0 <= i < |before| && before[i] == y;
    assert SignatureOf(before[i]) == SignatureOf(x);
    LostAfter(before, after, x);
    assert forall k :: 0 <= k < |Kept(before + after)| ==> Kept(before + after)[k] in Kept(before + after);
  }

  lemma RepeatedBehind(before: seq<Sample>, rest: seq<Sample>, x: Sample)
    requires Repeated(rest, x)
    ensures Repeated(before + rest, x)
  {
    var r :| 0 <= r < |rest| && SameSeries(rest[r], x);
    assert (before + rest)[|before| + r] == rest[r];
  }

  lemma NoneOfIsNoSeries(pre: seq<Sample>, x: Sample)
    requires NoneOf(pre, FamilyOf(x.metric))
    ensures forall s :: s in pre ==> !SameSeries(s, x)
  {
  }

  // The series is lost, then.
  lemma LostBehindRival(pre: seq<Sample>, rival: seq<Sample>, rest: seq<Sample>, x: Sample, values: seq<string>)
    requires NoneOf(pre, FamilyOf(x.metric))
    requires Yields(rival, x.metric, values) && values != Values(x.labels) && JoinNul(values) == JoinNul(Values(x.labels))
    requires Repeated(rest, x)
    ensures Loses(pre + rival + rest, x)
  {
    NoneOfIsNoSeries(pre, x);
    NotKeptBehindRival(pre, rival, rest, x, values);
    RepeatedBehind(pre + rival, rest, x);
  }
}
