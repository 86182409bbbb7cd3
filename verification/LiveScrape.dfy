/** A scrape of a running server: what a reader finds at any moment goes back to one cycle
(internal/powerscale/prometheus.go, internal/powerscale/collector.go). */
module LiveScrape {
  import opened Metrics
  import opened Snapshots
  import opened Collection
  import Exporters
  import opened ServerProtocol
  import opened EndToEnd

  // Each answer's samples are built from what its cluster reported.
  ghost predicate Reported(table: map<string, StatKeySpec>, answers: seq<Answers>) {
    exists reports :: AllBuiltFrom(table, answers, reports)
  }

  ghost predicate ReportedWithoutNul(table: map<string, StatKeySpec>, answers: seq<Answers>) {
    exists reports :: AllBuiltFrom(table, answers, reports) && AllClearOfNul(answers, reports)
  }

  /** In every reachable state whose store was published to, a scrape is faithful to the answers of one cycle that an
  earlier step began, and complete where the names and reports hold no NUL. */
  lemma StoreIsExportedFaithfully(table: map<string, StatKeySpec>, states: seq<Server>, actions: seq<Action>, n: nat,
                                  health: seq<Exporters.Health>)
    requires AllWellScoped(table)
    requires IsRun(states, actions) && n < |states| && states[n].publisher.Some?
    requires forall g, answers :: Begun(states, actions, n, g, answers) ==> Reported(table, answers)
    requires Exporters.IsHealthOf(health, states[n].store, states[n].store.perCluster.Keys)
    ensures var snap := states[n].store;
            exists answers ::
              && Begun(states, actions, n, states[n].publisher.value, answers)
              && Faithful(health, Exporters.Collected(snap, snap.names), answers)
              && (ReportedWithoutNul(table, answers) ==> Complete(Exporters.Collected(snap, snap.names), answers))
  {
    var snap := states[n].store;
    EveryVisibleSnapshotIsWhole(states, actions, n);
    var answers :| Begun(states, actions, n, states[n].publisher.value, answers) && IsSnapshotOf(snap, Entries(answers));
    var reports :| AllBuiltFrom(table, answers, reports);
    CycleIsExportedFaithfully(table, answers, reports, snap, health);
    if ReportedWithoutNul(table, answers) {
      var clear :| AllBuiltFrom(table, answers, clear) && AllClearOfNul(answers, clear);
      CycleIsExportedFaithfully(table, answers, clear, snap, health);
    }
  }
}
