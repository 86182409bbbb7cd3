/** When the store is sure to show the running configuration after a reload: cancelling a loop does not
wait for the cycle it is in (main.go, function stopCollection). */
module Staleness {
  import opened Wrappers
  import opened Paths
  import opened Snapshots
  import opened Collection
  import opened ServerProtocol
  import Metrics

  ghost predicate IsQuietRun(states: seq<Server>, actions: seq<Action>) {
    && |states| == |actions| + 1 && AllTruthful(actions)
    && forall i {:trigger actions[i]} :: 0 <= i < |actions| ==> Quiet(states[i], actions[i]) && Next(states[i], actions[i], states[i + 1])
  }

  // `t` can follow `s` while the clusters stay as they are.
  ghost predicate Reaches(s: Server, t: Server) {
    exists states, actions :: IsQuietRun(states, actions) && states[0] == s && states[|actions|] == t
  }

  lemma ReachesItself(s: Server)
    ensures Reaches(s, s)
  {
    var states: seq<Server>, actions: seq<Action> := [s], [];
    assert IsQuietRun(states, actions);
  }

  lemma QuietStepOf(states: seq<Server>, actions: seq<Action>, i: nat)
    requires IsQuietRun(states, actions) && i < |actions|
    ensures Quiet(states[i], actions[i]) && Next(states[i], actions[i], states[i + 1])
  {
  }

  lemma OneMoreQuietStep(states: seq<Server>, actions: seq<Action>, a: Action, t: Server, i: nat)
    requires IsQuietRun(states, actions) && i <= |actions|
    requires Quiet(states[|actions|], a) && Next(states[|actions|], a, t)
    ensures Quiet((states + [t])[i], (actions + [a])[i])
    ensures Next((states + [t])[i], (actions + [a])[i], (states + [t])[i + 1])
  {
    if i < |actions| {
      QuietStepOf(states, actions, i);
      assert (actions + [a])[i] == actions[i] && (states + [t])[i] == states[i] && (states + [t])[i + 1] == states[i + 1];
    }
  }

  lemma ReachesFurther(s: Server, t: Server, a: Action, u: Server)
    requires Reaches(s, t) && Quiet(t, a) && Next(t, a, u) && Truthful(a)
    ensures Reaches(s, u)
  {
    var states, actions :| IsQuietRun(states, actions) && states[0] == s && states[|actions|] == t;
    var states', actions' := states + [u], actions + [a];
    forall i | 0 <= i < |actions'| ensures Quiet(states'[i], actions'[i]) && Next(states'[i], actions'[i], states'[i + 1]) {
      OneMoreQuietStep(states, actions, a, u, i);
    }
    OneMoreTruthful(actions, a);
    assert IsQuietRun(states', actions');
  }

  // In a quiet step what is loaded has the clusters that run.
  lemma QuietStepKeepsInv(s: Server, a: Action, t: Server)
    requires Inv(s) && s.reload.Idle? && Quiet(s, a) && Next(s, a, t)
    ensures Inv(t) && t.reload.Idle? && SameLoops(s, t)
  {
    assert Sound(a);
    NextKeepsInv(s, a, t);
    QuietStepKeepsLoops(s, a, t);
  }

  lemma QuietStepGoesOn(r: Server, s: Server, a: Action, t: Server)
    requires Inv(s) && s.reload.Idle? && SameLoops(r, s) && Quiet(s, a) && Next(s, a, t)
    ensures Inv(t) && t.reload.Idle? && SameLoops(r, t)
  {
    QuietStepKeepsInv(s, a, t);
    SameLoopsGoesOn(r, s, t);
  }

  lemma {:induction false} QuietRunKeepsInv(states: seq<Server>, actions: seq<Action>, n: nat)
    requires IsQuietRun(states, actions) && n < |states|
    requires Inv(states[0]) && states[0].reload.Idle?
    ensures Inv(states[n]) && states[n].reload.Idle? && SameLoops(states[0], states[n])
  {
    if n > 0 {
      QuietRunKeepsInv(states, actions, n - 1);
      QuietStepOf(states, actions, n - 1);
      QuietStepGoesOn(states[0], states[n - 1], actions[n - 1], states[n]);
    }
  }

  lemma ReachedKeepsInv(s: Server, t: Server)
    requires Inv(s) && s.reload.Idle? && Reaches(s, t)
    ensures Inv(t) && t.reload.Idle? && SameLoops(s, t)
  {
    var states, actions :| IsQuietRun(states, actions) && states[0] == s && states[|actions|] == t;
    QuietRunKeepsInv(states, actions, |actions|);
  }

  // The newest loop publishes last, and every older one is gone.
  ghost predicate Settled(s: Server) {
    s.publisher == Some(Newest(s)) && forall g :: g in s.loops && g != Newest(s) ==> s.loops[g].pc.Exited?
  }

  lemma QuietStepStaysSettled(s: Server, a: Action, t: Server)
    requires Inv(s) && s.reload.Idle? && Settled(s) && Quiet(s, a) && Next(s, a, t)
    ensures Settled(t)
  {
    QuietStepKeepsInv(s, a, t);
  }

  lemma {:induction false} QuietRunStaysSettled(states: seq<Server>, actions: seq<Action>, n: nat)
    requires IsQuietRun(states, actions) && n < |states|
    requires Inv(states[0]) && states[0].reload.Idle? && Settled(states[0])
    ensures Settled(states[n])
  {
    if n > 0 {
      var s, a, t := states[n - 1], actions[n - 1], states[n];
      QuietRunStaysSettled(states, actions, n - 1);
      QuietRunKeepsInv(states, actions, n - 1);
      QuietStepOf(states, actions, n - 1);
      QuietStepStaysSettled(s, a, t);
    }
  }

  // ---------------------------------------------------------------- an old loop can still publish

  lemma {:induction false} Enumerate(ms: set<Metrics.Metric>) returns (names: seq<Metrics.Metric>)
    ensures NoDuplicates(names) && forall m :: m in names <==> m in ms
    decreases ms
  {
    names := [];
    if m :| m in ms {
      var rest := Enumerate(ms - {m});
      names := [m] + rest;
      assert m !in rest;
    }
  }

  lemma SnapshotExists(results: Results) returns (snap: Snapshot)
    ensures IsSnapshotOf(snap, results)
  {
    var samples := Flatten(results);
    var ms := set s | s in samples :: s.metric;
    var index := map m | m in ms :: Metrics.OfMetric(samples, m);
    forall m ensures m in ms <==> Metrics.OfMetric(samples, m) != [] {
      OfMetricIsNonEmpty(samples, m);
    }
    var names := Enumerate(ms);
    snap := Snapshot(PerCluster(results), index, names);
  }

  lemma {:induction false} OfMetricIsNonEmpty(samples: seq<Metrics.Sample>, m: Metrics.Metric)
    ensures Metrics.OfMetric(samples, m) != [] <==> exists s :: s in samples && s.metric == m
  {
    if samples != [] {
      OfMetricIsNonEmpty(samples[..|samples| - 1], m);
      assert samples == samples[..|samples| - 1] + [samples[|samples| - 1]];
    }
  }

  lemma PublishingLoopCanPublish(s: Server, t: Server, g: nat)
    requires HasLoop(t, g) && t.loops[g].pc.Publishing? && Reaches(s, t)
    ensures exists u :: Reaches(s, u) && u.publisher == Some(g)
  {
    var u := WithLoop(t, g, Waiting).(store := t.loops[g].pc.snap, publisher := Some(g));
    assert Next(t, Publish(g), u);
    ReachesFurther(s, t, Publish(g), u);
  }

  // One more task step of the loop's cycle.
  lemma CycleCanStep(s: Server, t: Server, g: nat) returns (u: Server)
    requires Inv(t) && HasLoop(t, g) && t.loops[g].pc.Collecting? && Reaches(s, t)
    requires !Finished(t.loops[g].pc.cycle)
    ensures Inv(u) && HasLoop(u, g) && u.loops[g].pc.Collecting? && Reaches(s, u)
    ensures Remaining(u.loops[g].pc.cycle.pcs) < Remaining(t.loops[g].pc.cycle.pcs)
  {
    var cycle := t.loops[g].pc.cycle;
    var i: nat :| i < |cycle.pcs| && !cycle.pcs[i].Done?;
    assert Enabled(cycle, i);
    u := WithLoop(t, g, Collecting(Step(cycle, i)));
    assert Next(t, Task(g, i), u);
    NextKeepsInv(t, Task(g, i), u);
    ReachesFurther(s, t, Task(g, i), u);
    StepLeavesLess(cycle, i);
  }

  lemma StepLeavesLess(cycle: Cycle, i: nat)
    requires Enabled(cycle, i)
    ensures Remaining(Step(cycle, i).pcs) < Remaining(cycle.pcs)
  {
    RemainingAfterUpdate(cycle.pcs, i, Step(cycle, i).pcs[i]);
    assert Step(cycle, i).pcs == cycle.pcs[i := Step(cycle, i).pcs[i]];
  }

  lemma {:induction false} CollectingLoopCanPublish(s: Server, t: Server, g: nat)
    requires Inv(t) && HasLoop(t, g) && t.loops[g].pc.Collecting? && Reaches(s, t)
    ensures exists u :: Reaches(s, u) && u.publisher == Some(g)
    decreases Remaining(t.loops[g].pc.cycle.pcs)
  {
    if Finished(t.loops[g].pc.cycle) {
      var snap := SnapshotExists(t.loops[g].pc.cycle.results);
      var u := WithLoop(t, g, Publishing(snap));
      assert Next(t, Collected(g, snap), u);
      ReachesFurther(s, t, Collected(g, snap), u);
      PublishingLoopCanPublish(s, u, g);
    } else {
      var u := CycleCanStep(s, t, g);
      CollectingLoopCanPublish(s, u, g);
    }
  }

  // A loop that has not exited can publish once more, cancelled or not.
  lemma LiveLoopCanPublish(s: Server, g: nat)
    requires Inv(s) && HasLoop(s, g) && !s.loops[g].pc.Exited?
    ensures exists u :: Reaches(s, u) && u.publisher == Some(g)
  {
    ReachesItself(s);
    match s.loops[g].pc
    case Waiting =>
      var names := s.generations[g];
      var answers := seq(|names|, i requires 0 <= i < |names| => Answers(names[i], Err(""), Err(""), Err(""), [], 0));
      var t := WithLoop(s, g, Collecting(NewCycle(answers)));
      assert Next(s, Tick(g, answers), t);
      NextKeepsInv(s, Tick(g, answers), t);
      ReachesFurther(s, s, Tick(g, answers), t);
      CollectingLoopCanPublish(s, t, g);
    case Collecting(_) => CollectingLoopCanPublish(s, s, g);
    case Publishing(_) => PublishingLoopCanPublish(s, s, g);
  }

  lemma SettledStaysCurrent(s: Server, t: Server)
    requires Inv(s) && s.reload.Idle? && Settled(s) && Reaches(s, t)
    ensures t.publisher == Some(Newest(s)) && WholeCycle(t.store, ClusterNames(t.config.clusters))
  {
    var states, actions :| IsQuietRun(states, actions) && states[0] == s && states[|actions|] == t;
    QuietRunStaysSettled(states, actions, |actions|);
    ReachedKeepsInv(s, t);
  }

  lemma UnsettledCanGoBack(s: Server) returns (t: Server)
    requires Inv(s) && s.reload.Idle? && !Settled(s)
    ensures Reaches(s, t) && t.publisher != Some(Newest(s))
  {
    ReachesItself(s);
    t := s;
    if g :| g in s.loops && g != Newest(s) && !s.loops[g].pc.Exited? {
      LiveLoopCanPublish(s, g);
      t :| Reaches(s, t) && t.publisher == Some(g);
    }
  }

  /** While the clusters stay as they are, every snapshot to come is of the running configuration
  exactly when the last one is and all older loops have exited. Otherwise the store can go back to a
  configuration that is no longer running: a cancelled loop may finish its cycle, and even tick again. */
  lemma StoreStaysCurrentExactly(s: Server)
    requires Inv(s) && s.reload.Idle?
    ensures (forall t :: Reaches(s, t) ==> t.publisher == Some(Newest(s))) <==> Settled(s)
    ensures Settled(s) ==> forall t :: Reaches(s, t) ==> WholeCycle(t.store, ClusterNames(t.config.clusters))
  {
    if Settled(s) {
      forall t | Reaches(s, t) ensures t.publisher == Some(Newest(s)) && WholeCycle(t.store, ClusterNames(t.config.clusters)) {
        SettledStaysCurrent(s, t);
      }
    } else {
      var t := UnsettledCanGoBack(s);
    }
  }

  // ---------------------------------------------------------------- what a reader sees

  ghost function NameSet(names: seq<string>): set<string> {
    set name | name in names
  }

  // The names of the running configuration's clusters.
  ghost function Running(s: Server): set<string> {
    NameSet(ClusterNames(s.config.clusters))
  }

  lemma KeysOfWholeCycle(snap: Snapshot, names: seq<string>)
    requires WholeCycle(snap, names)
    ensures snap.perCluster.Keys == NameSet(names)
  {
    var answers :| NamesMatch(answers, names) && IsSnapshotOf(snap, Entries(answers));
    forall name ensures name in snap.perCluster <==> name in names {
      PerClusterHas(Entries(answers), name);
      if i :| 0 <= i < |names| && names[i] == name {
        assert Entries(answers)[i].value.cluster == name;
      }
    }
  }

  // The store has an entry for every running cluster and no other, and every loop that has not exited polls those.
  ghost predicate VisiblySettled(s: Server) {
    && s.store.perCluster.Keys == Running(s)
    && forall g :: g in s.loops && g < |s.generations| && !s.loops[g].pc.Exited? ==> NameSet(s.generations[g]) == Running(s)
  }

  lemma PublishStaysVisiblySettled(s: Server, g: nat)
    requires VisiblySettled(s) && HasLoop(s, g) && s.loops[g].pc.Publishing?
    requires WholeCycle(s.loops[g].pc.snap, s.generations[g])
    ensures VisiblySettled(WithLoop(s, g, Waiting).(store := s.loops[g].pc.snap, publisher := Some(g)))
  {
    KeysOfWholeCycle(s.loops[g].pc.snap, s.generations[g]);
  }

  // Other steps leave the store as it is, and no loop that has exited comes back.
  lemma OtherStepsKeepTheStore(s: Server, a: Action, t: Server)
    requires Inv(s) && s.reload.Idle? && Quiet(s, a) && Next(s, a, t) && !a.Publish?
    ensures t.store == s.store && forall g :: g in s.loops && s.loops[g].pc.Exited? ==> g in t.loops && t.loops[g].pc.Exited?
  {
  }

  lemma QuietStepStaysVisiblySettled(s: Server, a: Action, t: Server)
    requires Inv(s) && s.reload.Idle? && VisiblySettled(s) && Quiet(s, a) && Next(s, a, t)
    ensures VisiblySettled(t)
  {
    if a.Publish? {
      PublishStaysVisiblySettled(s, a.gen);
    } else {
      QuietStepKeepsLoops(s, a, t);
      OtherStepsKeepTheStore(s, a, t);
    }
  }

  lemma {:induction false} QuietRunStaysVisiblySettled(states: seq<Server>, actions: seq<Action>, n: nat)
    requires IsQuietRun(states, actions) && n < |states|
    requires Inv(states[0]) && states[0].reload.Idle? && VisiblySettled(states[0])
    ensures VisiblySettled(states[n])
  {
    if n > 0 {
      var s, a, t := states[n - 1], actions[n - 1], states[n];
      QuietRunStaysVisiblySettled(states, actions, n - 1);
      QuietRunKeepsInv(states, actions, n - 1);
      QuietStepOf(states, actions, n - 1);
      QuietStepStaysVisiblySettled(s, a, t);
    }
  }

  // A loop that has not exited can show a reader the clusters of its own generation.
  lemma LiveLoopCanShow(s: Server, g: nat) returns (t: Server)
    requires Inv(s) && s.reload.Idle? && HasLoop(s, g) && !s.loops[g].pc.Exited?
    ensures Reaches(s, t) && t.store.perCluster.Keys == NameSet(s.generations[g]) && Running(t) == Running(s)
  {
    LiveLoopCanPublish(s, g);
    t :| Reaches(s, t) && t.publisher == Some(g);
    ReachedKeepsInv(s, t);
    KeysOfWholeCycle(t.store, s.generations[g]);
  }

  /** While the clusters stay as they are, a reader of the store always finds exactly the running clusters, if and
  only if that is so now and every loop that has not exited, cancelled or not, polls clusters of the same names. */
  lemma StoreShowsRunningClustersExactly(s: Server)
    requires Inv(s) && s.reload.Idle?
    ensures (forall t :: Reaches(s, t) ==> t.store.perCluster.Keys == Running(t)) <==> VisiblySettled(s)
  {
    if VisiblySettled(s) {
      forall t | Reaches(s, t) ensures t.store.perCluster.Keys == Running(t) {
        var states, actions :| IsQuietRun(states, actions) && states[0] == s && states[|actions|] == t;
        QuietRunStaysVisiblySettled(states, actions, |actions|);
      }
    }
    ReachesItself(s);
    if g :| g in s.loops && g < |s.generations| && !s.loops[g].pc.Exited? && NameSet(s.generations[g]) != Running(s) {
      var t := LiveLoopCanShow(s, g);
    }
  }
}
