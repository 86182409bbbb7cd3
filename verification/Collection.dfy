/** One collection cycle: every cluster polled in parallel into one result list
(internal/powerscale/collector.go). */
module Collection {
  import opened Wrappers
  import opened Metrics
  import opened Snapshots

  // What a cluster's client answers in one cycle, with the samples BuildSamples yields for it.
  datatype Answers = Answers(
    name: string, version: Result<int, string>, inventory: Result<(), string>, statistics: Result<(), string>,
    samples: seq<Sample>, time: int)

  function Started(a: Answers): ClusterSnapshot {
    ClusterSnapshot(a.name, false, if a.version.Ok? then a.version.value else 0, "", a.time, [])
  }

  // The entry of a cluster polled on its own.
  function Entry(a: Answers): (cs: ClusterSnapshot)
    ensures cs.cluster == a.name && cs.lastScrape == a.time
    ensures cs.apiVersion == if a.version.Ok? then a.version.value else 0
    ensures a.inventory.Err? ==> cs.scrapeError == a.inventory.error
    ensures a.inventory.Ok? && a.statistics.Err? ==> cs.scrapeError == a.statistics.error
    ensures cs.up <==> a.inventory.Ok? && a.statistics.Ok?
    ensures cs.up ==> cs.scrapeError == "" && cs.samples == a.samples
    ensures !cs.up ==> cs.samples == []
  {
    if a.inventory.Err? then Started(a).(scrapeError := a.inventory.error)
    else if a.statistics.Err? then Started(a).(scrapeError := a.statistics.error)
    else Started(a).(samples := a.samples, up := true)
  }

  method CollectCluster(a: Answers) returns (cs: ClusterSnapshot)
    ensures cs == Entry(a)
  {
    cs := ClusterSnapshot(a.name, false, 0, "", a.time, []);
    if a.version.Ok? {
      cs := cs.(apiVersion := a.version.value);
    }
    if a.inventory.Err? {
      return cs.(scrapeError := a.inventory.error);
    }
    if a.statistics.Err? {
      return cs.(scrapeError := a.statistics.error);
    }
    cs := cs.(samples := a.samples);
    cs := cs.(up := true);
  }

  function Entries(answers: seq<Answers>): Results {
    seq(|answers|, i requires 0 <= i < |answers| => Some(Entry(answers[i])))
  }

  // ---------------------------------------------------------------- the cycle as a transition system

  // Where a task stands: it calls the client three times, then writes its entry.
  datatype Pc =
    | Ready
    | Versioned(cs: ClusterSnapshot)
    | Inventoried(cs: ClusterSnapshot)
    | Finishing(cs: ClusterSnapshot)
    | Done

  // `cancelled` is the group's context: it is cancelled once a task returns an error, and from then on
  // every client call fails.
  datatype Cycle = Cycle(answers: seq<Answers>, pcs: seq<Pc>, results: Results, cancelled: bool)

  function Called<T>(answer: Result<T, string>, cancelled: bool): Result<T, string> {
    if cancelled then Err("context canceled") else answer
  }

  // A task returns an error or none. Tasks that collect a cluster return none, failed polls included.
  datatype Returned = NoError | SomeError

  const TASK_RETURNS: Returned := NoError

  function NewCycle(answers: seq<Answers>): Cycle {
    Cycle(answers, seq(|answers|, _ => Ready), seq(|answers|, _ => None), false)
  }

  predicate Enabled(c: Cycle, i: nat) {
    i < |c.answers| == |c.pcs| == |c.results| && !c.pcs[i].Done?
  }

  // One step of task `i`. It touches its own program counter and result only, but reads the shared context.
  function Step(c: Cycle, i: nat): Cycle
    requires Enabled(c, i)
  {
    var a := c.answers[i];
    match c.pcs[i]
    case Ready =>
      var cs := ClusterSnapshot(a.name, false, 0, "", a.time, []);
      var version := Called(a.version, c.cancelled);
      c.(pcs := c.pcs[i := Versioned(if version.Ok? then cs.(apiVersion := version.value) else cs)])
    case Versioned(cs) =>
      var inventory := Called(a.inventory, c.cancelled);
      c.(pcs := c.pcs[i := if inventory.Ok? then Inventoried(cs) else Finishing(cs.(scrapeError := inventory.error))])
    case Inventoried(cs) =>
      var statistics := Called(a.statistics, c.cancelled);
      c.(pcs := c.pcs[i := Finishing(if statistics.Ok? then cs.(samples := a.samples, up := true)
                                     else cs.(scrapeError := statistics.error))])
    case Finishing(cs) =>
      c.(pcs := c.pcs[i := Done], results := c.results[i := Some(cs)], cancelled := c.cancelled || TASK_RETURNS == SomeError)
    case Done => c
  }

  // Runs the tasks in the order a scheduler picks them; a finished task cannot be picked.
  ghost predicate Schedules(c: Cycle, schedule: seq<nat>)
    decreases |schedule|
  {
    schedule == [] || (Enabled(c, schedule[0]) && Schedules(Step(c, schedule[0]), schedule[1..]))
  }

  ghost function Run(c: Cycle, schedule: seq<nat>): Cycle
    requires Schedules(c, schedule)
    decreases |schedule|
  {
    if schedule == [] then c else Run(Step(c, schedule[0]), schedule[1..])
  }

  predicate Finished(c: Cycle) {
    forall i :: 0 <= i < |c.pcs| ==> c.pcs[i].Done?
  }

  /** What every interleaving keeps: no cancellation, and each task where its own answers alone have brought it. */
  ghost predicate CycleInv(c: Cycle) {
    && |c.pcs| == |c.results| == |c.answers| && !c.cancelled
    && forall i :: 0 <= i < |c.answers| ==> TaskInv(c.answers[i], c.pcs[i], c.results[i])
  }

  predicate TaskInv(a: Answers, pc: Pc, result: Option<ClusterSnapshot>) {
    match pc
    case Ready => result.None?
    case Versioned(cs) => result.None? && cs == Started(a)
    case Inventoried(cs) => result.None? && cs == Started(a) && a.inventory.Ok?
    case Finishing(cs) => result.None? && cs == Entry(a)
    case Done => result == Some(Entry(a))
  }

  lemma NewCycleInv(answers: seq<Answers>)
    ensures CycleInv(NewCycle(answers))
  {
  }

  lemma StepKeepsInv(c: Cycle, i: nat)
    requires CycleInv(c) && Enabled(c, i)
    ensures CycleInv(Step(c, i)) && Step(c, i).answers == c.answers
  {
  }

  lemma {:induction false} ScheduleKeepsInv(c: Cycle, schedule: seq<nat>)
    requires CycleInv(c) && Schedules(c, schedule)
    ensures CycleInv(Run(c, schedule)) && Run(c, schedule).answers == c.answers
    decreases |schedule|
  {
    if schedule != [] {
      StepKeepsInv(c, schedule[0]);
      ScheduleKeepsInv(Step(c, schedule[0]), schedule[1..]);
    }
  }

  lemma FinishedResults(c: Cycle)
    requires CycleInv(c) && Finished(c)
    ensures c.results == Entries(c.answers)
  {
    forall i | 0 <= i < |c.results| ensures c.results[i] == Some(Entry(c.answers[i])) {
      assert TaskInv(c.answers[i], c.pcs[i], c.results[i]);
    }
  }

  /** Every interleaving that finishes collects what polling the clusters one after another would. */
  lemma EveryInterleavingCollectsAlike(answers: seq<Answers>, schedule: seq<nat>)
    requires Schedules(NewCycle(answers), schedule) && Finished(Run(NewCycle(answers), schedule))
    ensures Run(NewCycle(answers), schedule).results == Entries(answers)
  {
    NewCycleInv(answers);
    ScheduleKeepsInv(NewCycle(answers), schedule);
    FinishedResults(Run(NewCycle(answers), schedule));
  }

  /** An entry depends on its own client only: whatever the other clusters answer, and in whatever
  order the tasks of the two cycles run. */
  lemma EntriesAreIndependent(answers: seq<Answers>, others: seq<Answers>, schedule: seq<nat>, other: seq<nat>, i: nat)
    requires i < |answers| && i < |others| && answers[i] == others[i]
    requires Schedules(NewCycle(answers), schedule) && Finished(Run(NewCycle(answers), schedule))
    requires Schedules(NewCycle(others), other) && Finished(Run(NewCycle(others), other))
    ensures var r, r' := Run(NewCycle(answers), schedule).results, Run(NewCycle(others), other).results;
            |r| == |answers| && |r'| == |others| && r[i] == r'[i]
  {
    EveryInterleavingCollectsAlike(answers, schedule);
    EveryInterleavingCollectsAlike(others, other);
  }

  // ---------------------------------------------------------------- every cycle ends

  function StepsLeft(pc: Pc): nat {
    match pc
    case Ready => 4
    case Versioned(_) => 3
    case Inventoried(_) => 2
    case Finishing(_) => 1
    case Done => 0
  }

  function Remaining(pcs: seq<Pc>): nat {
    if pcs == [] then 0 else Remaining(pcs[..|pcs| - 1]) + StepsLeft(pcs[|pcs| - 1])
  }

  lemma {:induction false} RemainingAfterUpdate(pcs: seq<Pc>, i: nat, pc: Pc)
    requires i < |pcs|
    ensures Remaining(pcs[i := pc]) == Remaining(pcs) - StepsLeft(pcs[i]) + StepsLeft(pc)
  {
    var k := |pcs| - 1;
    if i < k {
      RemainingAfterUpdate(pcs[..k], i, pc);
      assert pcs[i := pc][..k] == pcs[..k][i := pc];
    } else {
      assert pcs[i := pc][..k] == pcs[..k];
    }
  }

  lemma {:induction false} RemainingAtStart(n: nat)
    ensures Remaining(seq(n, _ => Ready)) == 4 * n
  {
    if n > 0 {
      RemainingAtStart(n - 1);
      assert seq(n, _ => Ready)[..n - 1] == seq(n - 1, _ => Ready);
    }
  }

  lemma {:induction false} ScheduleIsBounded(c: Cycle, schedule: seq<nat>)
    requires CycleInv(c) && Schedules(c, schedule)
    ensures |schedule| <= Remaining(c.pcs)
    decreases |schedule|
  {
    if schedule != [] {
      var i := schedule[0];
      StepKeepsInv(c, i);
      ScheduleIsBounded(Step(c, i), schedule[1..]);
      RemainingAfterUpdate(c.pcs, i, Step(c, i).pcs[i]);
      assert Step(c, i).pcs == c.pcs[i := Step(c, i).pcs[i]];
    }
  }

  /** No schedule runs longer than four steps a cluster, and until the cycle is finished some task can move. */
  lemma EveryCycleEnds(answers: seq<Answers>, schedule: seq<nat>)
    requires Schedules(NewCycle(answers), schedule)
    ensures |schedule| <= 4 * |answers|
    ensures !Finished(Run(NewCycle(answers), schedule)) ==> exists i :: Enabled(Run(NewCycle(answers), schedule), i)
  {
    NewCycleInv(answers);
    ScheduleIsBounded(NewCycle(answers), schedule);
    assert NewCycle(answers).pcs == seq(|answers|, _ => Ready);
    RemainingAtStart(|answers|);
    ScheduleKeepsInv(NewCycle(answers), schedule);
    var c := Run(NewCycle(answers), schedule);
    if !Finished(c) {
      var i :| 0 <= i < |c.pcs| && !c.pcs[i].Done?;
      assert Enabled(c, i);
    }
  }
}
