/** From what clusters report to what is exported: the collection, sample and export parts together. */
module EndToEnd {
  import opened Wrappers
  import opened Strings
  import opened Paths
  import opened Metrics
  import opened MetricNames
  import opened NamedSchema
  import opened Inventory
  import opened Derivations
  import opened SampleSchema
  import opened Snapshots
  import opened Collection
  import opened Exporters
  import opened Exposition
  import StatKeys

  ghost predicate AllWellScoped(table: map<string, StatKeySpec>) {
    forall key :: key in table ==> WellScoped(table[key])
  }

  // What a cluster reports in one cycle, with the orders its maps are visited in.
  datatype Report = Report(inventory: Inventory, statistics: Option<Statistics>, order: Order)
  {
    predicate HoldsNoNul() {
      inventory.HoldsNoNul() && (statistics.Some? ==> statistics.value.HoldsNoNul())
    }
  }

  // The samples of an answer are those built from the report; without one there are none.
  ghost predicate BuiltFrom(table: map<string, StatKeySpec>, a: Answers, report: Option<Report>) {
    match report
    case None => a.samples == []
    case Some(r) => IsOrder(r.order, r.inventory) && a.samples == Samples(table, a.name, r.inventory, r.statistics, r.order)
  }

  ghost predicate AllBuiltFrom(table: map<string, StatKeySpec>, answers: seq<Answers>, reports: seq<Option<Report>>) {
    |reports| == |answers| && forall i :: 0 <= i < |answers| ==> BuiltFrom(table, answers[i], reports[i])
  }

  // The names and reports hold no NUL where they become label values.
  ghost predicate AllClearOfNul(answers: seq<Answers>, reports: seq<Option<Report>>) {
    && |reports| == |answers|
    && forall i :: 0 <= i < |answers| ==> NoNul(answers[i].name) && (reports[i].Some? ==> reports[i].value.HoldsNoNul())
  }

  lemma EntryOwnsItsSamples(table: map<string, StatKeySpec>, a: Answers, report: Option<Report>)
    requires AllWellScoped(table) && BuiltFrom(table, a, report)
    ensures exists id :: AllConform(Entry(a).samples, a.name, id)
  {
    if Entry(a).samples == [] {
      assert AllConform(Entry(a).samples, a.name, "");
    } else {
      var r := report.value;
      OneSchemaPerMetric(table, a.name, r.inventory, r.statistics, r.order);
      assert AllConform(Entry(a).samples, a.name, r.inventory.guid);
    }
  }

  lemma EntriesOwnTheirSamples(table: map<string, StatKeySpec>, answers: seq<Answers>, reports: seq<Option<Report>>)
    requires AllWellScoped(table) && AllBuiltFrom(table, answers, reports)
    ensures OwnSamples(Entries(answers))
  {
    var results := Entries(answers);
    forall i | 0 <= i < |answers| ensures exists id :: AllConform(results[i].value.samples, results[i].value.cluster, id) {
      EntryOwnsItsSamples(table, answers[i], reports[i]);
      var id :| AllConform(Entry(answers[i]).samples, answers[i].name, id);
      assert AllConform(results[i].value.samples, results[i].value.cluster, id);
    }
  }

  lemma EntryHoldsNoNul(table: map<string, StatKeySpec>, a: Answers, report: Option<Report>)
    requires AllWellScoped(table) && BuiltFrom(table, a, report)
    requires NoNul(a.name) && (report.Some? ==> report.value.HoldsNoNul())
    ensures forall s :: s in Entry(a).samples ==> NulFree(Values(s.labels))
  {
    if report.Some? {
      var r := report.value;
      NulFreeReportsGiveNulFreeLabels(table, a.name, r.inventory, r.statistics, r.order);
    }
  }

  // Every collected sample is of the entry of one answer.
  lemma {:induction false} SampleOfAnAnswer(answers: seq<Answers>, s: Sample) returns (i: nat)
    requires s in Flatten(Entries(answers))
    ensures i < |answers| && s in Entry(answers[i]).samples
  {
    var k := |answers| - 1;
    var results := Entries(answers);
    assert results[..k] == Entries(answers[..k]);
    if s in Flatten(results[..k]) {
      i := SampleOfAnAnswer(answers[..k], s);
    } else {
      i := k;
    }
  }

  lemma CollectedSamplesAreClean(table: map<string, StatKeySpec>, answers: seq<Answers>, reports: seq<Option<Report>>)
    requires AllWellScoped(table) && AllBuiltFrom(table, answers, reports) && AllClearOfNul(answers, reports)
    ensures AllClean(Flatten(Entries(answers)))
  {
    EntriesOwnTheirSamples(table, answers, reports);
    forall s | s in Flatten(Entries(answers)) ensures NulFree(Values(s.labels)) {
      var i := SampleOfAnAnswer(answers, s);
      EntryHoldsNoNul(table, answers[i], reports[i]);
    }
    OwnSamplesAreClean(Entries(answers));
  }

  /** What a reader of the exported text can rely on in a scrape of a cycle, whatever the clusters report. */
  ghost predicate Faithful(health: seq<Health>, out: seq<Emitted>, answers: seq<Answers>) {
    // No name and label values are offered twice.
    && NoDuplicates(HealthPoints(health) + OfferPoints(out))
    // The name of a sample fixes its label names.
    && (forall e :: e in out ==> LabelTexts(e.labelNames) == SchemaOf(Text(e.metric)))
    // Only what was collected is offered, and the health of every cluster is.
    && (forall e :: e in out ==> exists s :: s in Flatten(Entries(answers)) && e == Emission(s))
    && (forall h :: h in health ==> exists i :: 0 <= i < |answers| && IsHealthOfAnswer(h, answers[i]))
    && forall i :: 0 <= i < |answers| ==> exists h :: h in health && h.Up? && h.cluster == answers[i].name
  }

  ghost predicate IsHealthOfAnswer(h: Health, a: Answers) {
    h.cluster == a.name && h in HealthOf(a.name, Entry(a))
  }

  // Every series collected is offered.
  ghost predicate Complete(out: seq<Emitted>, answers: seq<Answers>) {
    forall s :: s in Flatten(Entries(answers)) ==> exists e :: e in out && e.metric == s.metric && e.values == Values(s.labels)
  }

  lemma HealthIsOfTheAnswers(answers: seq<Answers>, snap: Snapshot, health: seq<Health>)
    requires IsSnapshotOf(snap, Entries(answers)) && IsHealthOf(health, snap, snap.perCluster.Keys)
    ensures forall h :: h in health ==> exists i :: 0 <= i < |answers| && IsHealthOfAnswer(h, answers[i])
    ensures forall i :: 0 <= i < |answers| ==> exists h :: h in health && h.Up? && h.cluster == answers[i].name
  {
    var results := Entries(answers);
    forall h | h in health ensures exists i :: 0 <= i < |answers| && IsHealthOfAnswer(h, answers[i]) {
      HealthOfCluster(snap, health, h);
      var i := PerClusterIsAnEntry(results, h.cluster);
      assert IsHealthOfAnswer(h, answers[i]);
    }
    forall i | 0 <= i < |answers| ensures exists h :: h in health && h.Up? && h.cluster == answers[i].name {
      PerClusterHas(results, answers[i].name);
      assert results[i].Some? && results[i].value.cluster == answers[i].name;
      var h := Up(answers[i].name, if snap.perCluster[answers[i].name].up then 1.0 else 0.0);
      HealthTellsTheEntries(snap, health, h);
      assert h in health && h.Up?;
    }
  }

  lemma OffersAreOfTheAnswers(answers: seq<Answers>, snap: Snapshot)
    requires IsSnapshotOf(snap, Entries(answers)) && AllFit(Flatten(Entries(answers)))
    ensures forall e :: e in Collected(snap, snap.names) ==>
              LabelTexts(e.labelNames) == SchemaOf(Text(e.metric)) && exists s :: s in Flatten(Entries(answers)) && e == Emission(s)
  {
    forall e | e in Collected(snap, snap.names)
      ensures LabelTexts(e.labelNames) == SchemaOf(Text(e.metric)) && exists s :: s in Flatten(Entries(answers)) && e == Emission(s)
    {
      var s := SampleOfOffer(snap, Entries(answers), e);
      SchemaOfName(e.metric);
    }
  }

  lemma EverySeriesIsOffered(answers: seq<Answers>, snap: Snapshot)
    requires IsSnapshotOf(snap, Entries(answers)) && AllClean(Flatten(Entries(answers)))
    ensures Complete(Collected(snap, snap.names), answers)
  {
    var results, out := Entries(answers), Collected(snap, snap.names);
    forall s | s in Flatten(results) ensures exists e :: e in out && e.metric == s.metric && e.values == Values(s.labels) {
      var e := OfferOfSample(snap, results, s);
    }
  }

  /** A scrape of one cycle is faithful, whatever the clusters report: the descriptor taken from the first sample of a
  metric fits every sample of it, across clusters. It is complete where the names and the reported texts hold no NUL. */
  lemma CycleIsExportedFaithfully(table: map<string, StatKeySpec>, answers: seq<Answers>, reports: seq<Option<Report>>,
                                  snap: Snapshot, health: seq<Health>)
    requires AllWellScoped(table) && AllBuiltFrom(table, answers, reports)
    requires IsSnapshotOf(snap, Entries(answers)) && IsHealthOf(health, snap, snap.perCluster.Keys)
    ensures Faithful(health, Collected(snap, snap.names), answers)
    ensures forall m :: m in snap.names ==> OffersOf(snap, m) == Emissions(Kept(snap.SamplesByName(m)))
    ensures AllClearOfNul(answers, reports) ==> Complete(Collected(snap, snap.names), answers)
  {
    EntriesOwnTheirSamples(table, answers, reports);
    OwnSamplesFit(Entries(answers));
    NothingIsOfferedTwice(snap, Entries(answers), health);
    OffersAreOfTheAnswers(answers, snap);
    HealthIsOfTheAnswers(answers, snap, health);
    forall m | m in snap.names ensures OffersOf(snap, m) == Emissions(Kept(snap.SamplesByName(m))) {
      EveryKeptSampleIsOffered(snap, Entries(answers), m);
    }
    if AllClearOfNul(answers, reports) {
      CollectedSamplesAreClean(table, answers, reports);
      EverySeriesIsOffered(answers, snap);
    }
  }

  /** With the embedded statistics table this holds outright. */
  lemma EmbeddedTableExportsFaithfully(answers: seq<Answers>, reports: seq<Option<Report>>, snap: Snapshot, health: seq<Health>)
    requires AllBuiltFrom(StatKeys.KeyTable(StatKeys.STAT_KEYS), answers, reports)
    requires IsSnapshotOf(snap, Entries(answers)) && IsHealthOf(health, snap, snap.perCluster.Keys)
    ensures Faithful(health, Collected(snap, snap.names), answers)
    ensures AllClearOfNul(answers, reports) ==> Complete(Collected(snap, snap.names), answers)
  {
    StatKeys.EmbeddedTableIsWellScoped();
    CycleIsExportedFaithfully(StatKeys.KeyTable(StatKeys.STAT_KEYS), answers, reports, snap, health);
  }

  /** Two clusters never share a signature, whatever they report, if their names differ and hold no NUL. */
  lemma ClustersNeverShareASignature(table: map<string, StatKeySpec>, answers: seq<Answers>, reports: seq<Option<Report>>,
                                     a: nat, b: nat, s: Sample, t: Sample)
    requires AllWellScoped(table) && AllBuiltFrom(table, answers, reports)
    requires a < |answers| && b < |answers| && answers[a].name != answers[b].name
    requires NoNul(answers[a].name) && NoNul(answers[b].name)
    requires s in Entry(answers[a]).samples && t in Entry(answers[b]).samples
    ensures SignatureOf(s) != SignatureOf(t)
  {
    EntriesOwnTheirSamples(table, answers, reports);
    ClustersNeverCollide(Entries(answers), a, b, s, t);
  }
}
