/** Collection, publication and reload of a running server, under every interleaving
(main.go, internal/powerscale/collector.go, internal/models/safe_config.go). */
module ServerProtocol {
  import opened Wrappers
  import opened Snapshots
  import opened Collection
  import opened Configuration
  import ReloadAgreement

  // ---------------------------------------------------------------- clients

  datatype Client = Direct(cluster: string) | Lazy(cluster: string)
  {
    function Name(): string { cluster }
  }

  function ClusterNames(clusters: seq<ClusterConfig>): seq<string> {
    seq(|clusters|, i requires 0 <= i < |clusters| => clusters[i].name)
  }

  function ClientNames(clients: seq<Client>): seq<string> {
    seq(|clients|, i requires 0 <= i < |clients| => clients[i].Name())
  }

  /** One client a cluster, in order; a cluster that cannot be reached now keeps its place. */
  method BuildClients(clusters: seq<ClusterConfig>, reachable: set<string>) returns (clients: seq<Client>)
    ensures ClientNames(clients) == ClusterNames(clusters)
  {
    clients := [];
    for i := 0 to |clusters|
      invariant ClientNames(clients) == ClusterNames(clusters[..i])
    {
      assert ClusterNames(clusters[..i + 1]) == ClusterNames(clusters[..i]) + [clusters[i].name];
      var client := if clusters[i].name in reachable then Direct(clusters[i].name) else Lazy(clusters[i].name);
      assert ClientNames(clients + [client]) == ClientNames(clients) + [clusters[i].name];
      clients := clients + [client];
    }
    assert clusters[..|clusters|] == clusters;
  }

  // ---------------------------------------------------------------- state

  // The background loop of one generation.
  datatype LoopPc =
    | Waiting
    | Collecting(cycle: Cycle)
    | Publishing(snap: Snapshot)
    | Exited

  datatype Loop = Loop(cancelled: bool, pc: LoopPc)

  // Where the one holder of the reload lock stands. Startup runs the last part of it.
  datatype ReloadPc =
    | Unstarted                     // no configuration yet
    | Idle
    | Swapped                       // the new configuration is in place and its clusters differ
    | Taken(cancel: Option<nat>)    // the fields are cleared, the old cancel function is in hand
    | Stopped                       // the old loop is cancelled
    | FirstCycle(cycle: Cycle)      // clients built, the synchronous first cycle runs
    | FirstPublishing(snap: Snapshot)
    | FirstPublished
    | Launched                      // the new loop runs, the fields are not set yet

  // `generations` lists the cluster names every client pool was built for, oldest first; the loop of a
  // generation, once launched, is found under its number. `publisher` is the generation whose snapshot is
  // in the store. `cancelField` and `clientsField` are the server's collectCancel and clients.
  datatype Server = Server(
    config: ConfigData,
    generations: seq<seq<string>>,
    loops: map<nat, Loop>,
    cancelField: Option<nat>,
    clientsField: Option<seq<string>>,
    reload: ReloadPc,
    store: Snapshot,
    publisher: Option<nat>)

  // The configuration file as decoded, what its fields refer to, and what is made of it.
  datatype Source = Source(w: World, checks: Checks, decoded: Option<ConfigData>)

  type Loaded = Result<ConfigData, ConfigError>

  datatype Action =
    | Start(source: Source, loaded: Loaded)
    | Reload(source: Source, loaded: Loaded)
    | TakeFields
    | CancelLoop
    | BuildPool(answers: seq<Answers>)
    | FirstTask(task: nat)
    | FirstCollected(snap: Snapshot)
    | FirstPublish
    | Launch
    | SetFields
    | Tick(gen: nat, answers: seq<Answers>)
    | Task(gen: nat, task: nat)
    | Collected(gen: nat, snap: Snapshot)
    | Publish(gen: nat)
    | Exit(gen: nat)

  ghost predicate Init(s: Server) {
    && s.generations == [] && s.loops == map[] && s.cancelField.None? && s.clientsField.None?
    && s.reload.Unstarted? && IsSnapshotOf(s.store, []) && s.publisher.None?
  }

  // What is loaded is what the startup and reload pipelines make of the file.
  ghost predicate Truthful(a: Action) {
    match a
    case Start(f, loaded) => loaded == Startup(f.w, f.checks, f.decoded)
    case Reload(f, loaded) => loaded == Prepare(f.w, f.checks, f.decoded)
    case _ => true
  }

  ghost predicate AllTruthful(actions: seq<Action>) {
    forall i {:trigger Truthful(actions[i])} :: 0 <= i < |actions| ==> Truthful(actions[i])
  }

  lemma OneMoreTruthful(actions: seq<Action>, a: Action)
    requires AllTruthful(actions) && Truthful(a)
    ensures AllTruthful(actions + [a])
  {
    forall i | 0 <= i < |actions + [a]| ensures Truthful((actions + [a])[i]) {
      if i < |actions| {
        assert Truthful(actions[i]);
      }
    }
  }

  function Newest(s: Server): int {
    |s.generations| - 1
  }

  predicate NamesMatch(answers: seq<Answers>, names: seq<string>) {
    |answers| == |names| && forall i :: 0 <= i < |names| ==> answers[i].name == names[i]
  }

  ghost predicate HasLoop(s: Server, g: nat) {
    g in s.loops && g < |s.generations|
  }

  function WithLoop(s: Server, g: nat, pc: LoopPc): Server
    requires g in s.loops
  {
    s.(loops := s.loops[g := s.loops[g].(pc := pc)])
  }

  // An unreadable or invalid file changes nothing. A valid one is swapped in; equal cluster lists need nothing more.
  function AfterReload(s: Server, loaded: Loaded): Server {
    match loaded
    case Err(_) => s
    case Ok(d) => s.(config := d, reload := if s.config.clusters != d.clusters then Swapped else s.reload)
  }

  ghost predicate Next(s: Server, a: Action, t: Server) {
    match a
    // Without a valid configuration the program ends before anything runs.
    case Start(_, loaded) => s.reload.Unstarted? && loaded.Ok? && t == s.(config := loaded.value, reload := Stopped)
    case Reload(_, loaded) => s.reload.Idle? && t == AfterReload(s, loaded)
    // stopCollection reads and clears the fields under the lock, then cancels outside it.
    case TakeFields =>
      s.reload.Swapped? && t == s.(cancelField := None, clientsField := None, reload := Taken(s.cancelField))
    case CancelLoop =>
      s.reload.Taken? &&
      t == s.(reload := Stopped,
              loops := if s.reload.cancel.Some? && s.reload.cancel.value in s.loops
                       then s.loops[s.reload.cancel.value := s.loops[s.reload.cancel.value].(cancelled := true)]
                       else s.loops)
    // startCollection builds the pool from the running configuration and collects once before it returns.
    case BuildPool(answers) =>
      s.reload.Stopped? && NamesMatch(answers, ClusterNames(s.config.clusters)) &&
      t == s.(generations := s.generations + [ClusterNames(s.config.clusters)], reload := FirstCycle(NewCycle(answers)))
    case FirstTask(i) =>
      s.reload.FirstCycle? && Enabled(s.reload.cycle, i) && t == s.(reload := FirstCycle(Step(s.reload.cycle, i)))
    case FirstCollected(snap) =>
      s.reload.FirstCycle? && Finished(s.reload.cycle) && IsSnapshotOf(snap, s.reload.cycle.results) &&
      t == s.(reload := FirstPublishing(snap))
    case FirstPublish =>
      s.reload.FirstPublishing? && Newest(s) >= 0 &&
      t == s.(store := s.reload.snap, publisher := Some(Newest(s)), reload := FirstPublished)
    case Launch =>
      s.reload.FirstPublished? && Newest(s) >= 0 &&
      t == s.(loops := s.loops[Newest(s) := Loop(false, Waiting)], reload := Launched)
    case SetFields =>
      s.reload.Launched? && Newest(s) >= 0 &&
      t == s.(cancelField := Some(Newest(s)), clientsField := Some(s.generations[Newest(s)]), reload := Idle)
    // A loop that waits may tick even after it was cancelled: with both ready, either is taken.
    case Tick(g, answers) =>
      HasLoop(s, g) && s.loops[g].pc.Waiting? && NamesMatch(answers, s.generations[g]) &&
      t == WithLoop(s, g, Collecting(NewCycle(answers)))
    case Task(g, i) =>
      HasLoop(s, g) && s.loops[g].pc.Collecting? && Enabled(s.loops[g].pc.cycle, i) &&
      t == WithLoop(s, g, Collecting(Step(s.loops[g].pc.cycle, i)))
    case Collected(g, snap) =>
      HasLoop(s, g) && s.loops[g].pc.Collecting? && Finished(s.loops[g].pc.cycle) &&
      IsSnapshotOf(snap, s.loops[g].pc.cycle.results) && t == WithLoop(s, g, Publishing(snap))
    case Publish(g) =>
      HasLoop(s, g) && s.loops[g].pc.Publishing? &&
      t == WithLoop(s, g, Waiting).(store := s.loops[g].pc.snap, publisher := Some(g))
    case Exit(g) =>
      HasLoop(s, g) && s.loops[g].pc.Waiting? && s.loops[g].cancelled && t == WithLoop(s, g, Exited)
  }

  // ---------------------------------------------------------------- invariants

  // The snapshot is the whole result of one cycle over clusters of these names.
  ghost predicate WholeCycle(snap: Snapshot, names: seq<string>) {
    exists answers :: NamesMatch(answers, names) && IsSnapshotOf(snap, Entries(answers))
  }

  ghost predicate CycleOf(c: Cycle, names: seq<string>) {
    CycleInv(c) && NamesMatch(c.answers, names)
  }

  ghost predicate LoopInv(l: Loop, names: seq<string>) {
    match l.pc
    case Collecting(cycle) => CycleOf(cycle, names)
    case Publishing(snap) => WholeCycle(snap, names)
    case _ => true
  }

  // Exactly the loop `g` is left uncancelled.
  ghost predicate OnlyLive(s: Server, g: nat) {
    && HasLoop(s, g) && !s.loops[g].cancelled
    && forall h :: h in s.loops && h != g ==> s.loops[h].cancelled
  }

  ghost predicate NoneLive(s: Server) {
    forall h :: h in s.loops ==> s.loops[h].cancelled
  }

  ghost predicate AtNewest(s: Server) {
    Newest(s) >= 0 && s.generations[Newest(s)] == ClusterNames(s.config.clusters)
  }

  ghost predicate ReloadInv(s: Server) {
    match s.reload
    case Unstarted => s.generations == [] && s.loops == map[] && s.cancelField.None?
    case Idle =>
      && AtNewest(s) && OnlyLive(s, Newest(s))
      && s.cancelField == Some(Newest(s)) && s.clientsField == Some(ClusterNames(s.config.clusters))
    case Swapped => Newest(s) >= 0 && OnlyLive(s, Newest(s)) && s.cancelField == Some(Newest(s))
    case Taken(cancel) => Newest(s) >= 0 && OnlyLive(s, Newest(s)) && cancel == Some(Newest(s)) && s.cancelField.None?
    case Stopped => NoneLive(s) && s.cancelField.None?
    case FirstCycle(cycle) =>
      AtNewest(s) && NoneLive(s) && Newest(s) !in s.loops && s.cancelField.None? && CycleOf(cycle, s.generations[Newest(s)])
    case FirstPublishing(snap) =>
      AtNewest(s) && NoneLive(s) && Newest(s) !in s.loops && s.cancelField.None? && WholeCycle(snap, s.generations[Newest(s)])
    case FirstPublished => AtNewest(s) && NoneLive(s) && Newest(s) !in s.loops && s.cancelField.None?
    case Launched => AtNewest(s) && OnlyLive(s, Newest(s)) && s.cancelField.None?
  }

  ghost predicate StoreInv(s: Server) {
    match s.publisher
    case None => IsSnapshotOf(s.store, []) && (s.reload.Unstarted? || s.reload.Stopped? || s.reload.FirstCycle? || s.reload.FirstPublishing?)
    case Some(g) => g < |s.generations| && WholeCycle(s.store, s.generations[g])
  }

  /** The inductive invariant of the protocol. */
  ghost predicate Inv(s: Server) {
    && (s.reload.Unstarted? || Acceptable(s.config.clusters))
    && (forall g :: g in s.loops ==> g < |s.generations| && LoopInv(s.loops[g], s.generations[g]))
    && ReloadInv(s)
    && StoreInv(s)
  }

  lemma FinishedCycleIsWhole(c: Cycle, names: seq<string>, snap: Snapshot)
    requires CycleOf(c, names) && Finished(c) && IsSnapshotOf(snap, c.results)
    ensures WholeCycle(snap, names)
  {
    FinishedResults(c);
  }

  lemma StartsInvariant(s: Server)
    requires Init(s)
    ensures Inv(s)
  {
  }

  // What is loaded, if it is, passed validation.
  ghost predicate Sound(a: Action) {
    (a.Start? || a.Reload?) && a.loaded.Ok? ==> Acceptable(a.loaded.value.clusters)
  }

  lemma TruthfulIsSound(a: Action)
    requires Truthful(a)
    ensures Sound(a)
  {
    if (a.Start? || a.Reload?) && a.source.decoded.Some? {
      ReloadAgreement.RunningConfigIsAcceptable(a.source.w, a.source.checks, a.source.decoded.value);
    }
  }

  lemma ConfigStepKeepsInv(s: Server, a: Action, t: Server)
    requires Inv(s) && Next(s, a, t) && Sound(a)
    requires a.Start? || a.Reload?
    ensures Inv(t)
  {
  }

  lemma ReloadStepKeepsInv(s: Server, a: Action, t: Server)
    requires Inv(s) && Next(s, a, t)
    requires a.TakeFields? || a.CancelLoop? || a.BuildPool? || a.Launch? || a.SetFields?
    ensures Inv(t)
  {
    match a
    case BuildPool(answers) =>
      NewCycleInv(answers);
      assert forall g :: g in s.loops ==> t.generations[g] == s.generations[g];
      assert t.generations[Newest(t)] == ClusterNames(s.config.clusters);
    case _ =>
  }

  lemma FirstTaskKeepsInv(s: Server, i: nat)
    requires Inv(s) && s.reload.FirstCycle? && Enabled(s.reload.cycle, i)
    ensures Inv(s.(reload := FirstCycle(Step(s.reload.cycle, i))))
  {
    StepKeepsInv(s.reload.cycle, i);
  }

  lemma FirstCollectedKeepsInv(s: Server, snap: Snapshot)
    requires Inv(s) && s.reload.FirstCycle? && Finished(s.reload.cycle) && IsSnapshotOf(snap, s.reload.cycle.results)
    ensures Inv(s.(reload := FirstPublishing(snap)))
  {
    FinishedCycleIsWhole(s.reload.cycle, s.generations[Newest(s)], snap);
  }

  lemma FirstStepKeepsInv(s: Server, a: Action, t: Server)
    requires Inv(s) && Next(s, a, t)
    requires a.FirstTask? || a.FirstCollected? || a.FirstPublish?
    ensures Inv(t)
  {
    match a
    case FirstTask(i) => FirstTaskKeepsInv(s, i);
    case FirstCollected(snap) => FirstCollectedKeepsInv(s, snap);
    case _ =>
  }

  // Moving one loop along keeps everything but that loop's own condition.
  lemma MovingALoopKeepsInv(s: Server, g: nat, pc: LoopPc)
    requires Inv(s) && HasLoop(s, g)
    requires LoopInv(Loop(s.loops[g].cancelled, pc), s.generations[g])
    ensures Inv(WithLoop(s, g, pc))
  {
    var t := WithLoop(s, g, pc);
    assert forall h :: h in t.loops <==> h in s.loops;
    assert forall h :: h in s.loops ==> t.loops[h].cancelled == s.loops[h].cancelled;
    assert forall h: nat :: OnlyLive(s, h) ==> OnlyLive(t, h);
    assert NoneLive(s) ==> NoneLive(t);
  }

  lemma PublishKeepsInv(s: Server, g: nat)
    requires Inv(s) && HasLoop(s, g) && s.loops[g].pc.Publishing?
    ensures Inv(WithLoop(s, g, Waiting).(store := s.loops[g].pc.snap, publisher := Some(g)))
  {
    MovingALoopKeepsInv(s, g, Waiting);
    var t := WithLoop(s, g, Waiting);
    var u := t.(store := s.loops[g].pc.snap, publisher := Some(g));
    assert ReloadInv(u) by {
      assert forall h: nat :: OnlyLive(t, h) ==> OnlyLive(u, h);
      assert NoneLive(t) ==> NoneLive(u);
    }
  }

  lemma LoopStepKeepsInv(s: Server, a: Action, t: Server)
    requires Inv(s) && Next(s, a, t)
    requires a.Tick? || a.Task? || a.Collected? || a.Publish? || a.Exit?
    ensures Inv(t)
  {
    match a
    case Tick(g, answers) =>
      NewCycleInv(answers);
      MovingALoopKeepsInv(s, g, Collecting(NewCycle(answers)));
    case Task(g, i) =>
      StepKeepsInv(s.loops[g].pc.cycle, i);
      MovingALoopKeepsInv(s, g, Collecting(Step(s.loops[g].pc.cycle, i)));
    case Collected(g, snap) =>
      FinishedCycleIsWhole(s.loops[g].pc.cycle, s.generations[g], snap);
      MovingALoopKeepsInv(s, g, Publishing(snap));
    case Publish(g) =>
      PublishKeepsInv(s, g);
    case Exit(g) =>
      MovingALoopKeepsInv(s, g, Exited);
  }

  lemma NextKeepsInv(s: Server, a: Action, t: Server)
    requires Inv(s) && Next(s, a, t) && Sound(a)
    ensures Inv(t)
  {
    if a.Tick? || a.Task? || a.Collected? || a.Publish? || a.Exit? {
      LoopStepKeepsInv(s, a, t);
    } else if a.FirstTask? || a.FirstCollected? || a.FirstPublish? {
      FirstStepKeepsInv(s, a, t);
    } else if a.Start? || a.Reload? {
      ConfigStepKeepsInv(s, a, t);
    } else {
      ReloadStepKeepsInv(s, a, t);
    }
  }

  // ---------------------------------------------------------------- every run

  /** A run: a server and any interleaving of the actions, with the configuration files it finds. */
  ghost predicate IsRun(states: seq<Server>, actions: seq<Action>) {
    && |states| == |actions| + 1 && Init(states[0]) && AllTruthful(actions)
    && forall i {:trigger actions[i]} :: 0 <= i < |actions| ==> Next(states[i], actions[i], states[i + 1])
  }

  lemma LoadedIsSound(actions: seq<Action>, i: nat)
    requires AllTruthful(actions) && i < |actions|
    ensures Sound(actions[i])
  {
    assert Truthful(actions[i]);
    TruthfulIsSound(actions[i]);
  }

  lemma {:induction false} RunKeepsInv(states: seq<Server>, actions: seq<Action>, n: nat)
    requires IsRun(states, actions) && n < |states|
    ensures Inv(states[n])
  {
    if n == 0 {
      StartsInvariant(states[0]);
    } else {
      RunKeepsInv(states, actions, n - 1);
      LoadedIsSound(actions, n - 1);
      NextKeepsInv(states[n - 1], actions[n - 1], states[n]);
    }
  }

  /** Whenever no reload is in progress there is exactly one uncancelled loop, the stored cancel
  function is its own, and its clients are the clusters of the running configuration in order. */
  lemma OneLoopWhenIdle(states: seq<Server>, actions: seq<Action>, n: nat)
    requires IsRun(states, actions) && n < |states| && states[n].reload.Idle?
    ensures var s := states[n];
            exists g ::
              && s.cancelField == Some(g) && g in s.loops && g < |s.generations|
              && (forall h :: h in s.loops ==> (!s.loops[h].cancelled <==> h == g))
              && s.generations[g] == ClusterNames(s.config.clusters) && s.clientsField == Some(s.generations[g])
  {
    RunKeepsInv(states, actions, n);
    assert OnlyLive(states[n], Newest(states[n]));
  }

  // No reload that changes the clusters is begun: it fails, or finds them as they are.
  predicate Quiet(s: Server, a: Action) {
    a.Reload? && a.loaded.Ok? ==> a.loaded.value.clusters == s.config.clusters
  }

  // The same loops, cancelled or not as before, with the same cancel function and clients stored.
  ghost predicate SameLoops(s: Server, t: Server) {
    && t.generations == s.generations && t.loops.Keys == s.loops.Keys
    && (forall g :: g in s.loops ==> t.loops[g].cancelled == s.loops[g].cancelled)
    && t.cancelField == s.cancelField && t.clientsField == s.clientsField
    && t.config.clusters == s.config.clusters
  }

  lemma QuietStepKeepsLoops(s: Server, a: Action, t: Server)
    requires Inv(s) && s.reload.Idle? && Next(s, a, t) && Quiet(s, a)
    ensures t.reload.Idle? && SameLoops(s, t)
    ensures t.config == if a.Reload? && a.loaded.Ok? then a.loaded.value else s.config
  {
  }

  lemma SameLoopsGoesOn(r: Server, s: Server, t: Server)
    requires SameLoops(r, s) && SameLoops(s, t)
    ensures SameLoops(r, t)
  {
  }

  lemma {:induction false} QuietRunKeepsLoops(states: seq<Server>, actions: seq<Action>, m: nat, n: nat)
    requires IsRun(states, actions) && m <= n < |states| && states[m].reload.Idle?
    requires forall k {:trigger Quiet(states[k], actions[k])} :: m <= k < n ==> Quiet(states[k], actions[k])
    ensures states[n].reload.Idle? && SameLoops(states[m], states[n])
  {
    if m < n {
      var s, a, t := states[n - 1], actions[n - 1], states[n];
      QuietRunKeepsLoops(states, actions, m, n - 1);
      RunKeepsInv(states, actions, n - 1);
      assert Next(s, a, t) && Quiet(s, a);
      QuietStepKeepsLoops(s, a, t);
      SameLoopsGoesOn(states[m], s, t);
    }
  }

  /** Reloads that fail or find the clusters as they are touch no loop, whatever the loops and tasks do meanwhile,
  and as long as all fail the whole configuration stays. */
  lemma {:induction false} QuietReloadsKeepTheLoops(states: seq<Server>, actions: seq<Action>, m: nat, n: nat)
    requires IsRun(states, actions) && m <= n < |states| && states[m].reload.Idle?
    requires forall k {:trigger Quiet(states[k], actions[k])} :: m <= k < n ==> Quiet(states[k], actions[k])
    ensures states[n].reload.Idle? && SameLoops(states[m], states[n])
    ensures (forall k :: m <= k < n && actions[k].Reload? ==> actions[k].loaded.Err?) ==> states[n].config == states[m].config
  {
    QuietRunKeepsLoops(states, actions, m, n);
    if m < n {
      QuietReloadsKeepTheLoops(states, actions, m, n - 1);
      RunKeepsInv(states, actions, n - 1);
      QuietRunKeepsLoops(states, actions, m, n - 1);
      assert Next(states[n - 1], actions[n - 1], states[n]) && Quiet(states[n - 1], actions[n - 1]);
      QuietStepKeepsLoops(states[n - 1], actions[n - 1], states[n]);
    }
  }

  // `k` is the last step before `n` that loaded a valid file, at the start or by a reload, and `d` what it loaded.
  ghost predicate LastLoaded(actions: seq<Action>, k: nat, n: nat, d: ConfigData) {
    && k < n <= |actions| && (actions[k].Start? || actions[k].Reload?) && actions[k].loaded == Ok(d)
    && forall j :: k < j < n && (actions[j].Start? || actions[j].Reload?) ==> actions[j].loaded.Err?
  }

  /** Once the server has started, the running configuration is the last one loaded from a valid file. */
  lemma {:induction false} RunningConfigIsLastLoaded(states: seq<Server>, actions: seq<Action>, n: nat)
    requires IsRun(states, actions) && n < |states| && !states[n].reload.Unstarted?
    ensures exists k :: LastLoaded(actions, k, n, states[n].config)
  {
    var s, a := states[n - 1], actions[n - 1];
    assert Next(s, a, states[n]);
    if (a.Start? || a.Reload?) && a.loaded.Ok? {
      assert LastLoaded(actions, n - 1, n, states[n].config);
    } else {
      RunningConfigIsLastLoaded(states, actions, n - 1);
      var k :| LastLoaded(actions, k, n - 1, s.config);
      assert LastLoaded(actions, k, n, states[n].config);
    }
  }

  ghost predicate DistinctNames(names: seq<string>) {
    forall i, j :: 0 <= i < j < |names| ==> names[i] != names[j]
  }

  lemma EntriesByName(answers: seq<Answers>, names: seq<string>, perCluster: map<string, ClusterSnapshot>)
    requires NamesMatch(answers, names) && DistinctNames(names) && perCluster == PerCluster(Entries(answers))
    ensures forall name :: name in perCluster <==> name in names
    ensures forall name :: name in perCluster ==>
              var cs := perCluster[name];
              && cs.cluster == name && (cs.up ==> cs.scrapeError == "") && (!cs.up ==> cs.samples == [])
  {
    var results := Entries(answers);
    forall name ensures name in perCluster <==> name in names {
      PerClusterHas(results, name);
      if name in names {
        var i :| 0 <= i < |names| && names[i] == name;
        assert results[i].Some? && results[i].value.cluster == name;
      }
    }
    forall name | name in perCluster ensures exists i :: 0 <= i < |answers| && perCluster[name] == Entry(answers[i]) && answers[i].name == name {
      var i :| 0 <= i < |names| && names[i] == name;
      PerClusterFinds(results, i);
    }
  }

  ghost predicate GenerationsDistinct(s: Server) {
    forall g :: 0 <= g < |s.generations| ==> DistinctNames(s.generations[g])
  }

  lemma {:induction false} GenerationsStayDistinct(states: seq<Server>, actions: seq<Action>, n: nat)
    requires IsRun(states, actions) && n < |states|
    ensures GenerationsDistinct(states[n])
  {
    if n > 0 {
      GenerationsStayDistinct(states, actions, n - 1);
      RunKeepsInv(states, actions, n - 1);
      assert Next(states[n - 1], actions[n - 1], states[n]);
    }
  }

  // ---------------------------------------------------------------- which cycle a snapshot is of

  // A cycle of generation `g` begins, and these are its clients' answers.
  ghost predicate Begins(s: Server, a: Action, g: nat, answers: seq<Answers>) {
    || (a.Tick? && a.gen == g && a.answers == answers)
    || (a.BuildPool? && |s.generations| == g && a.answers == answers)
  }

  ghost predicate Begun(states: seq<Server>, actions: seq<Action>, n: nat, g: nat, answers: seq<Answers>) {
    n <= |actions| && |states| == |actions| + 1 && exists k :: 0 <= k < n && Begins(states[k], actions[k], g, answers)
  }

  // The snapshot is the result of one cycle begun before step `n`, whole and of that cycle alone.
  ghost predicate OfOneCycle(states: seq<Server>, actions: seq<Action>, n: nat, g: nat, snap: Snapshot) {
    exists answers :: Begun(states, actions, n, g, answers) && IsSnapshotOf(snap, Entries(answers))
  }

  ghost predicate LoopHistory(states: seq<Server>, actions: seq<Action>, n: nat, g: nat, pc: LoopPc) {
    match pc
    case Collecting(cycle) => Begun(states, actions, n, g, cycle.answers)
    case Publishing(snap) => OfOneCycle(states, actions, n, g, snap)
    case _ => true
  }

  ghost predicate ReloadHistory(states: seq<Server>, actions: seq<Action>, n: nat, newest: int, pc: ReloadPc) {
    match pc
    case FirstCycle(cycle) => newest >= 0 && Begun(states, actions, n, newest, cycle.answers)
    case FirstPublishing(snap) => newest >= 0 && OfOneCycle(states, actions, n, newest, snap)
    case _ => true
  }

  // Every cycle under way was begun by some step, and every snapshot is of one such cycle.
  ghost predicate History(states: seq<Server>, actions: seq<Action>, n: nat)
    requires n < |states|
  {
    && (forall g :: g in states[n].loops ==> LoopHistory(states, actions, n, g, states[n].loops[g].pc))
    && ReloadHistory(states, actions, n, Newest(states[n]), states[n].reload)
    && (states[n].publisher.Some? ==> OfOneCycle(states, actions, n, states[n].publisher.value, states[n].store))
  }

  lemma BegunGoesOn(states: seq<Server>, actions: seq<Action>, n: nat)
    requires n < |actions|
    ensures forall g, answers :: Begun(states, actions, n, g, answers) ==> Begun(states, actions, n + 1, g, answers)
    ensures forall g, snap :: OfOneCycle(states, actions, n, g, snap) ==> OfOneCycle(states, actions, n + 1, g, snap)
    ensures forall g, pc :: LoopHistory(states, actions, n, g, pc) ==> LoopHistory(states, actions, n + 1, g, pc)
    ensures forall newest, pc ::
              ReloadHistory(states, actions, n, newest, pc) ==> ReloadHistory(states, actions, n + 1, newest, pc)
  {
    forall g, answers | Begun(states, actions, n, g, answers) ensures Begun(states, actions, n + 1, g, answers) {
      var k :| 0 <= k < n && Begins(states[k], actions[k], g, answers);
    }
    forall g, snap | OfOneCycle(states, actions, n, g, snap) ensures OfOneCycle(states, actions, n + 1, g, snap) {
      var answers :| Begun(states, actions, n, g, answers) && IsSnapshotOf(snap, Entries(answers));
      assert Begun(states, actions, n + 1, g, answers);
    }
  }

  // A finished cycle that was begun gives a snapshot of that cycle.
  lemma FinishedCycleIsOne(states: seq<Server>, actions: seq<Action>, n: nat, g: nat, c: Cycle, snap: Snapshot)
    requires Begun(states, actions, n, g, c.answers)
    requires CycleInv(c) && Finished(c) && IsSnapshotOf(snap, c.results)
    ensures OfOneCycle(states, actions, n, g, snap)
  {
    FinishedResults(c);
  }

  // How a step moves the loop of generation `g`: not, or to a rest, or it begins a cycle, goes on with one, or ends it.
  ghost predicate LoopMove(s: Server, a: Action, g: nat, pc: LoopPc) {
    || (g in s.loops && pc == s.loops[g].pc)
    || pc.Waiting? || pc.Exited?
    || (pc.Collecting? && Begins(s, a, g, pc.cycle.answers))
    || (g in s.loops && s.loops[g].pc.Collecting? && pc.Collecting? && pc.cycle.answers == s.loops[g].pc.cycle.answers)
    || (g in s.loops && s.loops[g].pc.Collecting? && pc.Publishing? && EndsIn(s.loops[g].pc.cycle, pc.snap))
  }

  ghost predicate EndsIn(c: Cycle, snap: Snapshot) {
    CycleInv(c) && Finished(c) && IsSnapshotOf(snap, c.results)
  }

  lemma StepMovesLoop(s: Server, a: Action, t: Server, g: nat)
    requires Inv(s) && Next(s, a, t) && g in t.loops
    ensures LoopMove(s, a, g, t.loops[g].pc)
  {
    if a.Task? {
      StepKeepsInv(s.loops[a.gen].pc.cycle, a.task);
    }
  }

  lemma LoopsKeepHistory(states: seq<Server>, actions: seq<Action>, n: nat, g: nat, pc: LoopPc)
    requires |states| == |actions| + 1 && n < |actions| && History(states, actions, n)
    requires LoopMove(states[n], actions[n], g, pc)
    ensures LoopHistory(states, actions, n + 1, g, pc)
  {
    BegunGoesOn(states, actions, n);
    var s := states[n];
    if g in s.loops && s.loops[g].pc.Collecting? && pc.Publishing? && EndsIn(s.loops[g].pc.cycle, pc.snap) {
      FinishedCycleIsOne(states, actions, n + 1, g, s.loops[g].pc.cycle, pc.snap);
    }
  }

  // The same for the first cycle of a generation, at startup and on reload.
  ghost predicate ReloadMove(s: Server, a: Action, newest: int, pc: ReloadPc) {
    || (!pc.FirstCycle? && !pc.FirstPublishing?)
    || (newest == Newest(s) && pc == s.reload)
    || (pc.FirstCycle? && newest >= 0 && Begins(s, a, newest, pc.cycle.answers))
    || (newest == Newest(s) && s.reload.FirstCycle? && pc.FirstCycle? && pc.cycle.answers == s.reload.cycle.answers)
    || (newest == Newest(s) && s.reload.FirstCycle? && pc.FirstPublishing? && EndsIn(s.reload.cycle, pc.snap))
  }

  lemma StepMovesReload(s: Server, a: Action, t: Server)
    requires Inv(s) && Next(s, a, t)
    ensures ReloadMove(s, a, Newest(t), t.reload)
  {
    if a.FirstTask? {
      StepKeepsInv(s.reload.cycle, a.task);
    }
  }

  lemma ReloadKeepsHistory(states: seq<Server>, actions: seq<Action>, n: nat, newest: int, pc: ReloadPc)
    requires |states| == |actions| + 1 && n < |actions| && History(states, actions, n)
    requires ReloadMove(states[n], actions[n], newest, pc)
    ensures ReloadHistory(states, actions, n + 1, newest, pc)
  {
    BegunGoesOn(states, actions, n);
    var s := states[n];
    if newest == Newest(s) && s.reload.FirstCycle? && pc.FirstPublishing? && EndsIn(s.reload.cycle, pc.snap) {
      FinishedCycleIsOne(states, actions, n + 1, newest, s.reload.cycle, pc.snap);
    }
  }

  lemma StoreKeepsHistory(states: seq<Server>, actions: seq<Action>, n: nat)
    requires IsRun(states, actions) && n < |actions| && History(states, actions, n) && states[n + 1].publisher.Some?
    ensures OfOneCycle(states, actions, n + 1, states[n + 1].publisher.value, states[n + 1].store)
  {
    assert Next(states[n], actions[n], states[n + 1]);
    BegunGoesOn(states, actions, n);
  }

  lemma {:induction false} RunKeepsHistory(states: seq<Server>, actions: seq<Action>, n: nat)
    requires IsRun(states, actions) && n < |states|
    ensures History(states, actions, n)
  {
    if n > 0 {
      RunKeepsHistory(states, actions, n - 1);
      RunKeepsInv(states, actions, n - 1);
      var s, a, t := states[n - 1], actions[n - 1], states[n];
      assert Next(s, a, t);
      forall g | g in t.loops ensures LoopHistory(states, actions, n, g, t.loops[g].pc) {
        StepMovesLoop(s, a, t, g);
        LoopsKeepHistory(states, actions, n - 1, g, t.loops[g].pc);
      }
      StepMovesReload(s, a, t);
      ReloadKeepsHistory(states, actions, n - 1, Newest(t), t.reload);
      if states[n].publisher.Some? {
        StoreKeepsHistory(states, actions, n - 1);
      }
    }
  }

  /** Every snapshot a reader can find after startup is the whole result of one cycle of one generation, a cycle
  begun at some earlier step, and of no other: it has exactly that generation's clusters, the down ones included,
  a down entry has no samples and an up entry no scrape error. */
  lemma EveryVisibleSnapshotIsWhole(states: seq<Server>, actions: seq<Action>, n: nat)
    requires IsRun(states, actions) && n < |states| && states[n].publisher.Some?
    ensures var s, g := states[n], states[n].publisher.value;
            && g < |s.generations| && OfOneCycle(states, actions, n, g, s.store)
            && (forall name :: name in s.store.perCluster <==> name in s.generations[g])
            && forall name :: name in s.store.perCluster ==>
                 var cs := s.store.perCluster[name];
                 && cs.cluster == name && (cs.up ==> cs.scrapeError == "") && (!cs.up ==> cs.samples == [])
  {
    RunKeepsInv(states, actions, n);
    RunKeepsHistory(states, actions, n);
    GenerationsStayDistinct(states, actions, n);
    var s := states[n];
    var names := s.generations[s.publisher.value];
    var answers :| NamesMatch(answers, names) && IsSnapshotOf(s.store, Entries(answers));
    EntriesByName(answers, names, s.store.perCluster);
  }

  /** From the end of startup on there is always such a snapshot. */
  lemma {:induction false} AlwaysPublishedAfterStart(states: seq<Server>, actions: seq<Action>, m: nat, n: nat)
    requires IsRun(states, actions) && m <= n < |states| && states[m].reload.Idle?
    ensures states[n].publisher.Some?
  {
    RunKeepsInv(states, actions, n);
    if m < n {
      AlwaysPublishedAfterStart(states, actions, m, n - 1);
      assert Next(states[n - 1], actions[n - 1], states[n]);
    }
  }

  // A cycle of generation `g` is under way: the first one, or one of its loop.
  ghost predicate FirstUnderWay(s: Server, g: nat) {
    s.reload.FirstCycle? && g == Newest(s)
  }

  ghost predicate LoopUnderWay(s: Server, g: nat) {
    g in s.loops && s.loops[g].pc.Collecting?
  }

  /** Cycles of one generation never overlap: its first cycle is over before it has a loop, and a loop
  starts a cycle only after publishing the one before. */
  lemma CyclesNeverOverlap(states: seq<Server>, actions: seq<Action>, n: nat, g: nat)
    requires IsRun(states, actions) && n < |states|
    ensures !(FirstUnderWay(states[n], g) && LoopUnderWay(states[n], g))
    ensures n < |actions| && actions[n].Tick? && actions[n].gen == g ==> !LoopUnderWay(states[n], g) && !FirstUnderWay(states[n], g)
  {
    RunKeepsInv(states, actions, n);
    if n < |actions| {
      assert Next(states[n], actions[n], states[n + 1]);
    }
  }
}
