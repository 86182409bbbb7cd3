/** A run in which a reload leaves an old loop behind that takes the store back (main.go, function stopCollection). */
module StaleRun {
  import opened Wrappers
  import opened Snapshots
  import opened Collection
  import opened Configuration
  import opened ServerProtocol
  import opened Staleness
  import opened ReloadAgreement

  ghost predicate Reachable(s: Server) {
    exists states, actions :: IsRun(states, actions) && states[|actions|] == s
  }

  lemma OneMoreStep(states: seq<Server>, actions: seq<Action>, a: Action, t: Server, i: nat)
    requires IsRun(states, actions) && Next(states[|actions|], a, t) && i <= |actions|
    ensures Next((states + [t])[i], (actions + [a])[i], (states + [t])[i + 1])
  {
    if i < |actions| {
      assert (actions + [a])[i] == actions[i] && (states + [t])[i] == states[i] && (states + [t])[i + 1] == states[i + 1];
    }
  }

  lemma ReachableFurther(s: Server, a: Action, t: Server)
    requires Reachable(s) && Next(s, a, t) && Truthful(a)
    ensures Reachable(t)
  {
    var states, actions :| IsRun(states, actions) && states[|actions|] == s;
    var states', actions' := states + [t], actions + [a];
    forall i | 0 <= i < |actions'| ensures Next(states'[i], actions'[i], states'[i + 1]) {
      OneMoreStep(states, actions, a, t, i);
    }
    OneMoreTruthful(actions, a);
    assert IsRun(states', actions') && states'[|actions'|] == t;
  }

  lemma ReachableInv(s: Server)
    requires Reachable(s)
    ensures Inv(s)
  {
    var states, actions :| IsRun(states, actions) && states[|actions|] == s;
    RunKeepsInv(states, actions, |actions|);
  }

  // The first cycle can run to its end.
  lemma {:induction false} FirstCycleCanEnd(s: Server) returns (snap: Snapshot)
    requires Reachable(s) && s.reload.FirstCycle?
    ensures Reachable(s.(reload := FirstPublishing(snap)))
    decreases Remaining(s.reload.cycle.pcs)
  {
    var cycle := s.reload.cycle;
    ReachableInv(s);
    if Finished(cycle) {
      snap := SnapshotExists(cycle.results);
      ReachableFurther(s, FirstCollected(snap), s.(reload := FirstPublishing(snap)));
    } else {
      var i: nat :| i < |cycle.pcs| && !cycle.pcs[i].Done?;
      var t := s.(reload := FirstCycle(Step(cycle, i)));
      ReachableFurther(s, FirstTask(i), t);
      StepLeavesLess(cycle, i);
      snap := FirstCycleCanEnd(t);
    }
  }

  // A pool can be built and its loop launched.
  lemma BuildCanEnd(s: Server) returns (t: Server)
    requires Reachable(s) && s.reload.Stopped?
    ensures Reachable(t) && t.reload.Idle? && t.config == s.config
    ensures t.generations == s.generations + [ClusterNames(s.config.clusters)]
    ensures t.loops == s.loops[|s.generations| := Loop(false, Waiting)]
  {
    var names := ClusterNames(s.config.clusters);
    var answers := seq(|names|, i requires 0 <= i < |names| => Answers(names[i], Err(""), Err(""), Err(""), [], 0));
    var g := |s.generations|;
    var building := s.(generations := s.generations + [names], reload := FirstCycle(NewCycle(answers)));
    ReachableFurther(s, BuildPool(answers), building);
    var snap := FirstCycleCanEnd(building);
    var collected := building.(reload := FirstPublishing(snap));
    var published := collected.(store := snap, publisher := Some(g), reload := FirstPublished);
    ReachableFurther(collected, FirstPublish, published);
    var launched := published.(loops := s.loops[g := Loop(false, Waiting)], reload := Launched);
    ReachableFurther(published, Launch, launched);
    t := launched.(cancelField := Some(g), clientsField := Some(names), reload := Idle);
    ReachableFurther(launched, SetFields, t);
  }

  lemma StartCanEnd(f: Source, d: ConfigData) returns (t: Server)
    requires Startup(f.w, f.checks, f.decoded) == Ok(d)
    ensures Reachable(t) && t.reload.Idle? && t.config == d
    ensures t.generations == [ClusterNames(d.clusters)] && t.loops == map[0 := Loop(false, Waiting)]
  {
    var empty := SnapshotExists([]);
    var init := Server(d, [], map[], None, None, Unstarted, empty, None);
    var states: seq<Server>, actions: seq<Action> := [init], [];
    assert IsRun(states, actions) && states[|actions|] == init;
    var started := init.(reload := Stopped);
    ReachableFurther(init, Start(f, Ok(d)), started);
    t := BuildCanEnd(started);
  }

  // A reload can swap in the configuration it loads and take over what the loops are held by.
  lemma ReloadCanTake(s: Server, f: Source, d: ConfigData) returns (t: Server)
    requires Reachable(s) && s.reload.Idle? && s.generations != []
    requires Prepare(f.w, f.checks, f.decoded) == Ok(d) && d.clusters != s.config.clusters
    ensures Reachable(t) && t == s.(config := d, cancelField := None, clientsField := None, reload := Taken(s.cancelField))
  {
    ReachableInv(s);
    var swapped := s.(config := d, reload := Swapped);
    ReachableFurther(s, Reload(f, Ok(d)), swapped);
    t := swapped.(cancelField := None, clientsField := None, reload := Taken(s.cancelField));
    ReachableFurther(swapped, TakeFields, t);
  }

  // A reload can go through while the old loop waits.
  lemma ReloadCanEnd(s: Server, f: Source, d: ConfigData) returns (t: Server)
    requires Reachable(s) && s.reload.Idle? && s.generations != [] && s.loops == map[0 := Loop(false, Waiting)]
    requires |s.generations| == 1
    requires Prepare(f.w, f.checks, f.decoded) == Ok(d) && d.clusters != s.config.clusters
    ensures Reachable(t) && t.reload.Idle? && t.config == d
    ensures t.generations == s.generations + [ClusterNames(d.clusters)]
    ensures t.loops == map[0 := Loop(true, Waiting), 1 := Loop(false, Waiting)]
  {
    ReachableInv(s);
    var taken := ReloadCanTake(s, f, d);
    var stopped := taken.(reload := Stopped, loops := map[0 := Loop(true, Waiting)]);
    assert s.loops[0 := Loop(true, Waiting)] == map[0 := Loop(true, Waiting)];
    ReachableFurther(taken, CancelLoop, stopped);
    t := BuildCanEnd(stopped);
  }

  /** Whatever configuration a server starts with, any reload of a valid file with other clusters can leave the old
  loop behind, cancelled but waiting, and this loop can still publish: a reader then finds the clusters the server
  started with. */
  lemma ReloadCanLeaveALoopBehind(f: Source, started: ConfigData, g: Source, loaded: ConfigData) returns (s: Server, t: Server)
    requires Startup(f.w, f.checks, f.decoded) == Ok(started) && Prepare(g.w, g.checks, g.decoded) == Ok(loaded)
    requires started.clusters != loaded.clusters
    ensures Reachable(s) && s.reload.Idle? && s.config == loaded && !Settled(s)
    ensures Reaches(s, t) && t.publisher == Some(0) && Newest(t) == 1
    ensures t.store.perCluster.Keys == NameSet(ClusterNames(started.clusters)) && Running(t) == Running(s)
  {
    var running := StartCanEnd(f, started);
    s := ReloadCanEnd(running, g, loaded);
    ReachableInv(s);
    assert HasLoop(s, 0) && !s.loops[0].pc.Exited?;
    LiveLoopCanPublish(s, 0);
    t :| Reaches(s, t) && t.publisher == Some(0);
    ReachedKeepsInv(s, t);
    KeysOfWholeCycle(t.store, s.generations[0]);
  }

  // ---------------------------------------------------------------- two configurations

  ghost function OneCluster(name: string): ClusterConfig {
    ClusterConfig(name, "h", 8080, "u", "p", "", EnvBool("", false))
  }

  lemma OneClusterResolves(w: World, raw: ClusterConfig)
    requires raw == OneCluster(raw.name) && raw.name != ""
    ensures ResolveCluster(w, raw) == (raw.(password := "p"), None) && raw.(password := "p") == raw
    ensures Acceptable([raw])
  {
    StableWithoutDollar(w.env, "h");
    StableWithoutDollar(w.env, "u");
    StableWithoutDollar(w.env, "p");
    ResolveWitness(w, raw, "p");
  }

  lemma OneClusterStarts(name: string, settings: Settings) returns (f: Source, d: ConfigData)
    requires name != ""
    ensures Startup(f.w, f.checks, f.decoded) == Ok(d) == Prepare(f.w, f.checks, f.decoded)
    ensures ClusterNames(d.clusters) == [name]
  {
    var w, checks, raw := World(map[], map[]), Checks(_ => true, _ => true), OneCluster(name);
    OneClusterResolves(w, raw);
    WitnessPrepares(w, checks, settings, raw, "p", "p");
    f := Source(w, checks, Some(ConfigData(settings, [raw])));
    d := ConfigData(DefaultSettings(settings), [raw]);
  }

  /** So there is a run from the start of a server with one cluster to a store that shows, after a reload to another
  cluster is over, the first one again. */
  lemma StoreCanGoBack(settings: Settings) returns (s: Server, t: Server)
    ensures Reachable(s) && s.reload.Idle? && Reaches(s, t) && !Settled(s)
    ensures Running(s) == Running(t) == {"b"} && t.store.perCluster.Keys == {"a"}
  {
    var f, started := OneClusterStarts("a", settings);
    var g, loaded := OneClusterStarts("b", settings);
    assert ClusterNames(started.clusters)[0] != ClusterNames(loaded.clusters)[0];
    s, t := ReloadCanLeaveALoopBehind(f, started, g, loaded);
    NameSetOfOne("a");
    NameSetOfOne("b");
  }

  lemma NameSetOfOne(name: string)
    ensures NameSet([name]) == {name}
  {
  }
}
