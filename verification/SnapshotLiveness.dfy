/**
 Permits, connections and progress of the chunk tasks of one run
 (core/bin/snapshots_creator/src/creator.rs:80-158 and 398-414, pools in main.rs:91-100).
 */
module SnapshotLiveness {
  import opened FiniteSets
  import opened Wrappers
  import opened HashedKeyChunks
  import opened StorageChain
  import opened SnapshotProgress
  import opened ObjectKeys
  import opened SnapshotProtocol

  predicate HoldsPermit(t: Task) { t.HoldsPermit() }
  predicate HoldsReplica(t: Task) { t.HoldsReplica() }
  predicate HoldsMaster(t: Task) { t.HoldsMaster() }
  predicate IsUnfinished(t: Task) { !t.Finished? }
  predicate HasNoPath(t: Task) { !t.PathRecorded() }

  function Those(tasks: map<nat, Task>, p: Task -> bool): set<nat> {
    set i | i in tasks && p(tasks[i])
  }

  function Elements(ids: seq<nat>): set<nat> {
    set i | i in ids
  }

  lemma CountAfterUpdate(tasks: map<nat, Task>, i: nat, t: Task, p: Task -> bool)
    requires i in tasks
    ensures |Those(tasks[i := t], p)| == |Those(tasks, p)| - (if p(tasks[i]) then 1 else 0) + (if p(t) then 1 else 0)
  {
    var rest := Those(tasks, p) - {i};
    assert Those(tasks, p) == rest + if p(tasks[i]) then {i} else {};
    assert Those(tasks[i := t], p) == rest + if p(t) then {i} else {};
  }

  // The free resources and the gauge, in terms of what the tasks hold.
  ghost predicate ResourcesOk(w: Work) {
    && w.permits + |Those(w.tasks, HoldsPermit)| == w.limit
    && w.replicaFree + |Those(w.tasks, HoldsReplica)| == w.limit
    && w.masterFree + |Those(w.tasks, HoldsMaster)| == 1
    && w.gauge == |Those(w.tasks, IsUnfinished)|
  }

  lemma LaunchedResourcesOk(p: Progress, limit: nat)
    requires Ascending(p.remaining)
    ensures ResourcesOk(LaunchTasks(p, limit))
  {
    var w := LaunchTasks(p, limit);
    assert Those(w.tasks, HoldsPermit) == {};
    assert Those(w.tasks, HoldsReplica) == {};
    assert Those(w.tasks, HoldsMaster) == {};
    assert Those(w.tasks, IsUnfinished) == Elements(p.remaining);
    DistinctCount(p.remaining);
  }

  lemma {:induction false} DistinctCount(ids: seq<nat>)
    requires Ascending(ids)
    ensures |Elements(ids)| == |ids|
  {
    if ids != [] {
      var init, last := ids[..|ids| - 1], ids[|ids| - 1];
      LastIsNew(ids);
      DistinctCount(init);
      assert Elements(ids) == Elements(init) + {last} by {
        assert ids == init + [last];
        SetOfAppend(init, last);
      }
    }
  }

  lemma LastIsNew(ids: seq<nat>)
    requires Ascending(ids) && ids != []
    ensures Ascending(ids[..|ids| - 1])
    ensures ids[|ids| - 1] !in Elements(ids[..|ids| - 1])
  {
  }

  lemma SetOfAppend(ids: seq<nat>, last: nat)
    ensures Elements(ids + [last]) == Elements(ids) + {last}
  {
  }

  lemma TaskStepKeepsResources(replica: Chain, run: Run, a: Action)
    requires run.Working? && a.OfTask() && TaskEnabled(run.work, a) && a.id < run.progress.chunkCount
    requires ResourcesOk(run.work)
    ensures ResourcesOk(WorkAfter(replica, run, a))
  {
    var tasks := run.work.tasks;
    var t := WorkAfter(replica, run, a).tasks[a.id];
    CountAfterUpdate(tasks, a.id, t, HoldsPermit);
    CountAfterUpdate(tasks, a.id, t, HoldsReplica);
    CountAfterUpdate(tasks, a.id, t, HoldsMaster);
    CountAfterUpdate(tasks, a.id, t, IsUnfinished);
  }

  lemma StepKeepsResources(s: State, a: Action)
    requires Inv(s) && Enabled(s, a)
    requires s.run.Working? ==> ResourcesOk(s.run.work)
    ensures Next(s, a).run.Working? ==> ResourcesOk(Next(s, a).run.work)
  {
    if a.OfTask() {
      TaskStepKeepsResources(s.replica, s.run, a);
    } else if a.ReadBlockRange? || a.AddRow? {
      var p := s.run.progress;
      if !p.isNew { WorkListIsExact(s.store.rows[p.batch].paths); }
      LaunchedResourcesOk(p, s.run.limit);
    }
  }

  lemma BehaviorStepKeepsResources(trace: seq<State>, k: nat)
    requires Behavior(trace) && k + 1 < |trace|
    requires trace[k].run.Working? ==> ResourcesOk(trace[k].run.work)
    ensures trace[k + 1].run.Working? ==> ResourcesOk(trace[k + 1].run.work)
  {
    ReachableStatesSatisfyInv(trace, k);
    var a := StepOfBehavior(trace, k);
    StepKeepsResources(trace[k], a);
  }

  /** Permits, replica connections, master connections and the gauge are accounted for in every reachable state. */
  lemma {:induction false} ReachableResources(trace: seq<State>, k: nat)
    requires Behavior(trace) && k < |trace|
    ensures trace[k].run.Working? ==> ResourcesOk(trace[k].run.work)
  {
    if k > 0 {
      ReachableResources(trace, k - 1);
      BehaviorStepKeepsResources(trace, k - 1);
    }
  }

  /** Tasks in progress never exceed the permits, replica connections never exceed the pool of the same size,
      the master connection is held at most once and no task holds connections to both. */
  lemma ResourceBounds(trace: seq<State>, k: nat)
    requires Behavior(trace) && k < |trace| && trace[k].run.Working?
    ensures var w := trace[k].run.work;
            && |Those(w.tasks, HoldsPermit)| <= w.limit
            && |Those(w.tasks, HoldsReplica)| <= w.limit
            && |Those(w.tasks, HoldsMaster)| <= 1
            && Those(w.tasks, HoldsReplica) * Those(w.tasks, HoldsMaster) == {}
            && 0 <= w.gauge
  {
    ReachableResources(trace, k);
  }

  // ---------- Progress ----------

  // The step that a task does next.
  function NextAction(t: Task, i: nat): Action
    requires !t.Finished?
  {
    match t
    case Waiting => AcquirePermit(i)
    case Permitted => ConnectReplica(i)
    case Reading => Load(i)
    case Loaded(_) => StoreChunk(i)
    case Stored(_) => ConnectMaster(i)
    case Saving(_) => Record(i)
    case Recorded => Finish(i)
  }

  // A task that can move, if there are any permits at all.
  lemma MovableTask(w: Work, i: nat) returns (j: nat)
    requires ResourcesOk(w) && w.limit > 0 && i in w.tasks && !w.tasks[i].Finished?
    ensures j in w.tasks && !w.tasks[j].Finished? && TaskEnabled(w, NextAction(w.tasks[j], j))
  {
    var holders, masters := Those(w.tasks, HoldsPermit), Those(w.tasks, HoldsMaster);
    if holders == {} {
      assert i !in holders;
      j := i;
    } else if masters != {} {
      j :| j in masters;
    } else {
      j :| j in holders;
      if w.tasks[j].Permitted? {
        ReadersBelowLimit(w, j);
      }
    }
  }

  lemma ReadersBelowLimit(w: Work, i: nat)
    requires ResourcesOk(w) && i in w.tasks && w.tasks[i].Permitted?
    ensures w.replicaFree > 0
  {
    var readers, holders := Those(w.tasks, HoldsReplica), Those(w.tasks, HoldsPermit);
    SubsetCount(readers, holders - {i});
    assert |holders - {i}| == |holders| - 1;
  }

  // Some task can do a step.
  ghost predicate SomeTaskMoves(s: State) {
    exists a: Action :: a.OfTask() && Enabled(s, a)
  }

  lemma TaskStepIsEnabled(s: State, a: Action)
    requires s.run.Working? && TasksOk(s) && a.OfTask() && TaskEnabled(s.run.work, a)
    ensures Enabled(s, a)
  {
    var p := s.run.progress;
    assert TaskOk(s, p.batch, p.chunkCount, a.id, s.run.work.tasks[a.id]);
  }

  lemma TaskCanMove(s: State, i: nat)
    requires s.run.Working? && TasksOk(s) && ResourcesOk(s.run.work) && s.run.work.limit > 0
    requires i in s.run.work.tasks && !s.run.work.tasks[i].Finished?
    ensures SomeTaskMoves(s)
  {
    var j := MovableTask(s.run.work, i);
    TaskStepIsEnabled(s, NextAction(s.run.work.tasks[j], j));
  }

  lemma TasksMoveIff(s: State)
    requires s.run.Working? && TasksOk(s) && ResourcesOk(s.run.work) && s.run.work.limit > 0
    ensures SomeTaskMoves(s) <==> exists i :: i in s.run.work.tasks && !s.run.work.tasks[i].Finished?
  {
    var tasks := s.run.work.tasks;
    if i :| i in tasks && !tasks[i].Finished? {
      TaskCanMove(s, i);
    }
  }

  /** The tasks never block each other: in every reachable state some task can do a step exactly as long as some task
      is unfinished. */
  lemma TasksMoveUntilFinished(trace: seq<State>, k: nat)
    requires Behavior(trace) && k < |trace| && trace[k].run.Working?
    ensures SomeTaskMoves(trace[k]) <==>
            exists i :: i in trace[k].run.work.tasks && !trace[k].run.work.tasks[i].Finished?
  {
    ReachableResources(trace, k);
    ReachableStatesSatisfyInv(trace, k);
    TasksMoveIff(trace[k]);
  }

  // The steps of a run, except for its end by force.
  predicate IsRunStep(a: Action) {
    a.OfTask() || a.Initialize? || a.ReadBlockRange? || a.StoreDeps? || a.AddRow? || a.Complete?
  }

  ghost predicate CanGoOn(s: State) {
    exists a :: IsRunStep(a) && Enabled(s, a)
  }

  // What a run needs from its configuration and from the replica to go on.
  ghost predicate HasWhatItNeeds(s: State) {
    match s.run
    case Idle => false
    case Initializing(config, _, b) =>
      && config.queries > 0 && config.chunkSize > 0 && VersionOf(config.version).Some?
      && b in s.replica.treeData
      && exists key :: key in s.replica.initialWrites && s.replica.initialWrites[key].batch <= b
    case Prepared(p, limit) => limit > 0 && s.replica.Sealed(p.batch)
    case _ => true
  }

  lemma {:induction false} LastInitialWrite(writes: InitialWrites, keys: set<Key>) returns (last: Key)
    requires keys != {} && forall key :: key in keys ==> key in writes
    ensures last in keys && forall other :: other in keys ==> !writes[other].After(writes[last])
    decreases |keys|
  {
    last :| last in keys;
    if keys != {last} {
      assert keys - {last} != {};
      var other := LastInitialWrite(writes, keys - {last});
      if writes[other].After(writes[last]) {
        last := other;
      }
    }
  }

  lemma InitializingCanGoOn(s: State)
    requires s.run.Initializing?
    ensures HasWhatItNeeds(s) ==> CanGoOn(s)
  {
    if HasWhatItNeeds(s) {
      var writes, b := s.replica.initialWrites, s.run.batch;
      var keys := set key | key in writes && writes[key].batch <= b;
      var key :| key in writes && writes[key].batch <= b;
      assert key in keys;
      var last := LastInitialWrite(writes, keys);
      assert IsLastInitialWrite(writes, b, last);
      assert Enabled(s, Initialize(last));
    }
  }

  lemma WorkingCanGoOn(s: State)
    requires s.run.Working? && TasksOk(s) && ResourcesOk(s.run.work) && s.run.work.limit > 0
    ensures CanGoOn(s)
  {
    TasksMoveIff(s);
    if !SomeTaskMoves(s) {
      assert Enabled(s, Complete);
    }
  }

  lemma GoesOnOnlyWithNeeds(s: State)
    requires CanGoOn(s)
    ensures HasWhatItNeeds(s)
  {
    var a :| IsRunStep(a) && Enabled(s, a);
    if a.Initialize? {
      assert a.last in s.replica.initialWrites;
    }
  }

  // The step of a run whose progress is known, before its tasks.
  function SetupStep(run: Run): Action
    requires run.Prepared? || run.Ranged? || run.DepsStored?
  {
    match run
    case Prepared(_, _) => ReadBlockRange
    case Ranged(_, _, _) => StoreDeps
    case DepsStored(_, _, _, _) => AddRow
  }

  lemma GoesOnWithNeeds(s: State)
    requires RunOk(s) && HasWhatItNeeds(s) && (s.run.Working? ==> ResourcesOk(s.run.work))
    ensures CanGoOn(s)
  {
    if s.run.Initializing? {
      InitializingCanGoOn(s);
    } else if s.run.Working? {
      WorkingCanGoOn(s);
    } else {
      assert Enabled(s, SetupStep(s.run));
    }
  }

  /** A run is stuck exactly if it lacks replica connections, a valid version, a chunk size, or data that has not
      reached the replica yet; in particular once its tasks are launched, it can always go on. */
  lemma RunCanGoOnIff(trace: seq<State>, k: nat)
    requires Behavior(trace) && k < |trace|
    ensures CanGoOn(trace[k]) <==> HasWhatItNeeds(trace[k])
  {
    ReachableStatesSatisfyInv(trace, k);
    ReachableResources(trace, k);
    if CanGoOn(trace[k]) {
      GoesOnOnlyWithNeeds(trace[k]);
    }
    if HasWhatItNeeds(trace[k]) {
      GoesOnWithNeeds(trace[k]);
    }
  }

  function Rank(t: Task): nat {
    match t
    case Waiting => 7
    case Permitted => 6
    case Reading => 5
    case Loaded(_) => 4
    case Stored(_) => 3
    case Saving(_) => 2
    case Recorded => 1
    case Finished => 0
  }

  // Steps that the listed tasks still have to do.
  function StepsLeft(tasks: map<nat, Task>, ids: seq<nat>): nat {
    if ids == [] then 0
    else (if ids[0] in tasks then Rank(tasks[ids[0]]) else 0) + StepsLeft(tasks, ids[1..])
  }

  lemma {:induction false} StepsLeftAfterUpdate(tasks: map<nat, Task>, ids: seq<nat>, i: nat, t: Task)
    requires Ascending(ids) && i in tasks
    ensures StepsLeft(tasks[i := t], ids) == StepsLeft(tasks, ids) + if i in ids then Rank(t) - Rank(tasks[i]) else 0
  {
    if ids != [] {
      StepsLeftAfterUpdate(tasks, ids[1..], i, t);
      assert i in ids <==> i == ids[0] || i in ids[1..];
    }
  }

  lemma {:induction false} NothingLeft(tasks: map<nat, Task>, ids: seq<nat>)
    ensures StepsLeft(tasks, ids) == 0 <==> forall i :: i in ids && i in tasks ==> tasks[i].Finished?
  {
    if ids != [] {
      NothingLeft(tasks, ids[1..]);
      assert forall i :: i in ids <==> i == ids[0] || i in ids[1..];
    }
  }

  /** Every step of a task takes exactly one off the number of steps left. */
  lemma TaskStepCountsDown(replica: Chain, run: Run, a: Action)
    requires run.Working? && a.OfTask() && TaskEnabled(run.work, a) && a.id < run.progress.chunkCount
    requires Ascending(run.progress.remaining) && a.id in run.progress.remaining
    ensures StepsLeft(WorkAfter(replica, run, a).tasks, run.progress.remaining)
              == StepsLeft(run.work.tasks, run.progress.remaining) - 1
  {
    var tasks := run.work.tasks;
    var t := WorkAfter(replica, run, a).tasks[a.id];
    assert Rank(t) == Rank(tasks[a.id]) - 1;
    StepsLeftAfterUpdate(tasks, run.progress.remaining, a.id, t);
  }

  /** When the tasks of a run are all finished, the snapshot is complete. */
  lemma FinishedRunIsComplete(s: State)
    requires s.run.Working? && TasksOk(s)
    requires forall i :: i in s.run.work.tasks ==> s.run.work.tasks[i].Finished?
    ensures s.run.progress.batch in s.store.rows && s.store.rows[s.run.progress.batch].IsComplete()
  {
    var p := s.run.progress;
    forall i | 0 <= i < p.chunkCount ensures s.store.rows[p.batch].paths[i].Some? {
      if i in s.run.work.tasks {
        assert TaskOk(s, p.batch, p.chunkCount, i, s.run.work.tasks[i]);
      }
    }
  }

  // ---------- Runs that are not interrupted ----------

  // What may happen during a run that is neither stopped nor completed: steps of its tasks, growth of the chains, and
  // late uploads of earlier runs.
  predicate Undisturbed(a: Action) {
    a.OfTask() || a.Grow? || a.Replicate? || a.Land?
  }

  // From state `j` of a behaviour on, the given steps are done while a run is working.
  ghost predicate Stretch(trace: seq<State>, j: nat, actions: seq<Action>) {
    && Behavior(trace) && j + |actions| < |trace| && trace[j].run.Working?
    && forall k :: 0 <= k < |actions| ==> StretchStep(trace, j, actions, k)
  }

  ghost predicate StretchStep(trace: seq<State>, j: nat, actions: seq<Action>, k: nat)
    requires k < |actions| && j + |actions| < |trace|
  {
    && Undisturbed(actions[k])
    && Enabled(trace[j + k], actions[k]) && trace[j + k + 1] == Next(trace[j + k], actions[k])
  }

  function TaskSteps(actions: seq<Action>, n: nat): nat
    requires n <= |actions|
  {
    if n == 0 then 0 else TaskSteps(actions, n - 1) + if actions[n - 1].OfTask() then 1 else 0
  }

  ghost function StepsLeftIn(s: State): nat
    requires s.run.Working?
  {
    StepsLeft(s.run.work.tasks, s.run.progress.remaining)
  }

  lemma UndisturbedStep(s: State, a: Action)
    requires s.run.Working? && TasksOk(s) && Undisturbed(a) && Enabled(s, a)
    ensures var t := Next(s, a);
            && t.run.Working? && t.run.progress == s.run.progress
            && StepsLeftIn(t) == StepsLeftIn(s) - if a.OfTask() then 1 else 0
  {
    if a.OfTask() {
      TaskStepCountsDown(s.replica, s.run, a);
    }
  }

  lemma StretchStepCounts(trace: seq<State>, j: nat, actions: seq<Action>, k: nat)
    requires Stretch(trace, j, actions) && k < |actions| && trace[j + k].run.Working?
    ensures trace[j + k + 1].run.Working? && trace[j + k + 1].run.progress == trace[j + k].run.progress
    ensures StepsLeftIn(trace[j + k + 1]) == StepsLeftIn(trace[j + k]) - if actions[k].OfTask() then 1 else 0
  {
    ReachableStatesSatisfyInv(trace, j + k);
    assert StretchStep(trace, j, actions, k);
    UndisturbedStep(trace[j + k], actions[k]);
  }

  lemma {:induction false} StretchCounts(trace: seq<State>, j: nat, actions: seq<Action>, k: nat)
    requires Stretch(trace, j, actions) && k <= |actions|
    ensures trace[j + k].run.Working? && trace[j + k].run.progress == trace[j].run.progress
    ensures TaskSteps(actions, k) + StepsLeftIn(trace[j + k]) == StepsLeftIn(trace[j])
  {
    if k > 0 {
      StretchCounts(trace, j, actions, k - 1);
      StretchStepCounts(trace, j, actions, k - 1);
    }
  }

  lemma HaltsWhenFinished(s: State)
    requires s.run.Working? && TasksOk(s) && ResourcesOk(s.run.work) && s.run.work.limit > 0
    ensures SomeTaskMoves(s) <==> StepsLeftIn(s) > 0
    ensures !SomeTaskMoves(s) ==>
              s.run.progress.batch in s.store.rows && s.store.rows[s.run.progress.batch].IsComplete()
  {
    TasksMoveIff(s);
    NothingLeft(s.run.work.tasks, s.run.progress.remaining);
    if !SomeTaskMoves(s) {
      FinishedRunIsComplete(s);
    }
  }

  lemma ReachableHaltsWhenFinished(trace: seq<State>, k: nat)
    requires Behavior(trace) && k < |trace| && trace[k].run.Working?
    ensures var s := trace[k];
            && (SomeTaskMoves(s) <==> StepsLeftIn(s) > 0)
            && (!SomeTaskMoves(s) ==>
                  s.run.progress.batch in s.store.rows && s.store.rows[s.run.progress.batch].IsComplete())
  {
    ReachableStatesSatisfyInv(trace, k);
    ReachableResources(trace, k);
    HaltsWhenFinished(trace[k]);
  }

  /** While a run is not interrupted, however the chains grow and whatever lands from earlier runs, the task steps done
      and the steps left add up to the same number. The tasks come to a halt exactly when no step is left, and then the
      snapshot is complete. */
  lemma {:induction false} UninterruptedRunCompletes(trace: seq<State>, j: nat, actions: seq<Action>)
    requires Stretch(trace, j, actions)
    ensures var s, t := trace[j], trace[j + |actions|];
            var b := s.run.progress.batch;
            && t.run.Working? && t.run.progress == s.run.progress
            && TaskSteps(actions, |actions|) + StepsLeftIn(t) == StepsLeftIn(s)
            && (SomeTaskMoves(t) <==> StepsLeftIn(t) > 0)
            && (!SomeTaskMoves(t) ==> b in t.store.rows && t.store.rows[b].IsComplete())
  {
    StretchCounts(trace, j, actions, |actions|);
    ReachableHaltsWhenFinished(trace, j + |actions|);
  }

  // ---------- Seven steps per missing chunk ----------

  // The tasks of the run have not done a step yet.
  predicate JustLaunched(run: Run)
    requires run.Working?
  {
    run.work.tasks == LaunchTasks(run.progress, run.work.limit).tasks
  }

  lemma {:induction false} StepsOfWaiting(tasks: map<nat, Task>, ids: seq<nat>)
    requires forall i :: i in ids ==> i in tasks && tasks[i].Waiting?
    ensures StepsLeft(tasks, ids) == 7 * |ids|
  {
    if ids != [] {
      StepsOfWaiting(tasks, ids[1..]);
    }
  }

  // A run that was just launched has one task for each missing chunk of its row.
  lemma LaunchedTasksAreMissing(s: State)
    requires s.run.Working? && TasksOk(s) && JustLaunched(s.run)
    ensures |s.run.progress.remaining| == |Missing(s.store.rows[s.run.progress.batch].paths)|
  {
    MissingAreUnrecorded(s);
    DistinctCount(s.run.progress.remaining);
    assert Those(s.run.work.tasks, HasNoPath) == Elements(s.run.progress.remaining);
  }

  lemma LaunchedSteps(s: State)
    requires s.run.Working? && TasksOk(s) && JustLaunched(s.run)
    ensures StepsLeftIn(s) == 7 * |Missing(s.store.rows[s.run.progress.batch].paths)|
  {
    StepsOfWaiting(s.run.work.tasks, s.run.progress.remaining);
    LaunchedTasksAreMissing(s);
  }

  lemma ReachableLaunchedSteps(trace: seq<State>, j: nat)
    requires Behavior(trace) && j < |trace| && trace[j].run.Working? && JustLaunched(trace[j].run)
    ensures var b := trace[j].run.progress.batch;
            b in trace[j].store.rows && StepsLeftIn(trace[j]) == 7 * |Missing(trace[j].store.rows[b].paths)|
  {
    ReachableStatesSatisfyInv(trace, j);
    LaunchedSteps(trace[j]);
  }

  /** From the launch of its tasks on, a run that is not interrupted does exactly seven task steps for each chunk that
      was missing: as long as it has done fewer, some task can go on, and after that the snapshot is complete. */
  lemma {:induction false} LaunchedRunTakesSevenSteps(trace: seq<State>, j: nat, actions: seq<Action>)
    requires Stretch(trace, j, actions) && JustLaunched(trace[j].run)
    ensures var b, t := trace[j].run.progress.batch, trace[j + |actions|];
            && b in trace[j].store.rows
            && var total := 7 * |Missing(trace[j].store.rows[b].paths)|;
               && TaskSteps(actions, |actions|) <= total
               && (SomeTaskMoves(t) <==> TaskSteps(actions, |actions|) < total)
               && (TaskSteps(actions, |actions|) == total ==> b in t.store.rows && t.store.rows[b].IsComplete())
  {
    ReachableLaunchedSteps(trace, j);
    UninterruptedRunCompletes(trace, j, actions);
  }

  lemma ResumeIsPrepared(s: State, config: Config, minChunks: u64, b: Batch)
    requires Inv(s) && s.run.Idle?
    requires b in s.store.rows && !s.store.rows[b].IsComplete()
    requires RequestedBatch(config, |s.master.lastBlocks|) == Some(b)
    ensures Enabled(s, Start(config, minChunks)) && |s.store.rows[b].paths| <= U64_MAX
    ensures Next(s, Start(config, minChunks)) ==
              if config.batch.None? then s
              else s.(run := Prepared(FromExistingSnapshot(b, s.store.rows[b]), config.queries))
  {
    forall c | c in s.store.rows ensures |s.store.rows[c].paths| <= U64_MAX { assert RowOk(s, c); }
  }

  // A run works on exactly the missing chunks of a row, with the row's version and chunk count.
  ghost predicate Resumes(run: Run, row: Row, limit: nat) {
    && run.Working? && run.work.limit == limit
    && run.progress.version == row.version && run.progress.chunkCount == |row.paths|
    && (forall i :: i in run.work.tasks <==> 0 <= i < |row.paths| && row.paths[i].None?)
  }

  lemma PreparedRunResumes(s: State, b: Batch, row: Row, limit: nat)
    requires |row.paths| <= U64_MAX && s.run == Prepared(FromExistingSnapshot(b, row), limit) && s.replica.Sealed(b)
    ensures Enabled(s, ReadBlockRange) <==> limit > 0
    ensures limit > 0 ==> Resumes(Next(s, ReadBlockRange).run, row, limit)
  {
    WorkListIsExact(row.paths);
  }

  /** A run that names the batch of an incomplete snapshot resumes it, whatever else its configuration says:
      with the version and chunk count of the row, and with exactly the missing chunks as its tasks. A run
      that names no batch never resumes one. */
  lemma ResumeLaunchesMissingChunks(s: State, config: Config, minChunks: u64, b: Batch)
    requires Inv(s) && s.run.Idle? && s.replica.Sealed(b)
    requires b in s.store.rows && !s.store.rows[b].IsComplete()
    requires RequestedBatch(config, |s.master.lastBlocks|) == Some(b)
    ensures Enabled(s, Start(config, minChunks))
    ensures var t := Next(s, Start(config, minChunks));
            var row := s.store.rows[b];
            if config.batch.None? then t == s
            else
              && (Enabled(t, ReadBlockRange) <==> config.queries > 0)
              && (config.queries > 0 ==> Resumes(Next(t, ReadBlockRange).run, row, config.queries))
  {
    ResumeIsPrepared(s, config, minChunks, b);
    if config.batch.Some? {
      PreparedRunResumes(Next(s, Start(config, minChunks)), b, s.store.rows[b], config.queries);
    }
  }

  // The steps can be done one after the other, and lead from `s` to `t`.
  ghost predicate Leads(s: State, steps: seq<Action>, t: State)
    decreases |steps|
  {
    if steps == [] then s == t
    else Enabled(s, steps[0]) && Leads(Next(s, steps[0]), steps[1..], t)
  }

  lemma {:induction false} LeadsFurther(s: State, a: Action, b: Action, rest: seq<Action>, t: State)
    requires Enabled(s, a) && Enabled(Next(s, a), b) && Leads(Next(Next(s, a), b), rest, t)
    ensures Leads(s, [a, b] + rest, t)
  {
    assert ([b] + rest)[1..] == rest && ([a, b] + rest)[1..] == [b] + rest;
    assert Leads(Next(s, a), [b] + rest, t);
  }

  // A run for a batch without a row, up to its progress.
  lemma NewRunIsPrepared(s: State, config: Config, minChunks: u64, last: Key, b: Batch) returns (t: State)
    requires Inv(s) && s.run.Idle? && b in s.replica.treeData && b !in s.store.rows
    requires RequestedBatch(config, |s.master.lastBlocks|) == Some(b)
    requires VersionOf(config.version).Some? && config.chunkSize > 0 && config.queries > 0
    requires IsLastInitialWrite(s.replica.initialWrites, b, last)
    ensures Enabled(s, Start(config, minChunks))
    ensures Enabled(Next(s, Start(config, minChunks)), Initialize(last))
    ensures t == Next(Next(s, Start(config, minChunks)), Initialize(last))
    ensures var count := ChunkCount(s.replica.initialWrites[last].index, config.chunkSize, minChunks).value;
            t == s.(run := Prepared(NewProgress(VersionOf(config.version).value, b, count), config.queries))
  {
    forall c | c in s.store.rows ensures |s.store.rows[c].paths| <= U64_MAX { assert RowOk(s, c); }
    t := Next(Next(s, Start(config, minChunks)), Initialize(last));
  }

  // From the progress to the tasks, with the factory dependencies and the row on the way.
  lemma PreparedRunLaunches(s: State) returns (t: State)
    requires s.run.Prepared? && s.run.progress.isNew && s.run.limit > 0
    requires s.replica.Sealed(s.run.progress.batch) && s.run.progress.batch !in s.store.rows
    ensures Leads(s, [ReadBlockRange, StoreDeps, AddRow], t)
    ensures var p := s.run.progress;
            && t.run.Working? && t.run.progress == p && t.run.work == LaunchTasks(p, s.run.limit)
            && t.store.rows == s.store.rows[p.batch := Row(p.version, DepsPath(p.batch), seq(p.chunkCount, i => None))]
            && DepsPath(p.batch) in t.store.objects
            && t.store.objects[DepsPath(p.batch)] == Deps(DepsAt(s.replica, p.batch))
  {
    var s1 := Next(s, ReadBlockRange);
    var s2 := Next(s1, StoreDeps);
    t := Next(s2, AddRow);
    assert Leads(t, [], t);
    assert [AddRow][1..] == [] && Leads(s2, [AddRow], t);
    assert [StoreDeps, AddRow][1..] == [AddRow] && Leads(s1, [StoreDeps, AddRow], t);
    assert [ReadBlockRange, StoreDeps, AddRow][1..] == [StoreDeps, AddRow];
  }

  // The five steps of a new run, and what they leave.
  lemma NewRunLaunches(s: State, config: Config, minChunks: u64, last: Key, b: Batch) returns (t: State)
    requires Inv(s) && s.run.Idle? && s.replica.Sealed(b) && b in s.replica.treeData && b !in s.store.rows
    requires RequestedBatch(config, |s.master.lastBlocks|) == Some(b)
    requires VersionOf(config.version).Some? && config.chunkSize > 0 && config.queries > 0
    requires IsLastInitialWrite(s.replica.initialWrites, b, last)
    ensures Leads(s, [Start(config, minChunks), Initialize(last), ReadBlockRange, StoreDeps, AddRow], t)
    ensures var count := ChunkCount(s.replica.initialWrites[last].index, config.chunkSize, minChunks).value;
            LaunchedWith(t, s.replica, b, VersionOf(config.version).value, count, config.queries)
  {
    var prepared := NewRunIsPrepared(s, config, minChunks, last, b);
    t := PreparedRunLaunches(prepared);
    FiveSteps(s, Start(config, minChunks), Initialize(last), t);
  }

  ghost predicate LaunchedWith(t: State, replica: Chain, b: Batch, version: Version, count: u64, limit: nat)
    requires replica.Sealed(b)
  {
    && t.run.Working? && t.run.work == LaunchTasks(NewProgress(version, b, count), limit)
    && DepsPath(b) in t.store.objects && t.store.objects[DepsPath(b)] == Deps(DepsAt(replica, b))
    && b in t.store.rows && t.store.rows[b] == Row(version, DepsPath(b), seq(count, i => None))
  }

  /** A run for a sealed batch that has tree data and no snapshot yet can always go ahead: five steps lead to a row
      without paths, to stored factory dependencies and to one task for each chunk. There is at least one chunk, and
      chunks of the configured size have room for the whole state after the batch; above the minimum, not one chunk is
      too many. */
  lemma NewRunLaunchesAllChunks(s: State, config: Config, minChunks: u64, last: Key, b: Batch) returns (t: State)
    requires Inv(s) && s.run.Idle? && s.replica.Sealed(b) && b in s.replica.treeData && b !in s.store.rows
    requires RequestedBatch(config, |s.master.lastBlocks|) == Some(b)
    requires VersionOf(config.version).Some? && config.chunkSize > 0 && config.queries > 0
    requires IsLastInitialWrite(s.replica.initialWrites, b, last)
    ensures Leads(s, [Start(config, minChunks), Initialize(last), ReadBlockRange, StoreDeps, AddRow], t)
    ensures t.run.Working? && t.run.work.limit == config.queries
    ensures DepsPath(b) in t.store.objects && t.store.objects[DepsPath(b)] == Deps(DepsAt(s.replica, b))
    ensures b in t.store.rows && t.store.rows[b].version == VersionOf(config.version).value
    ensures HaveRoom(s.replica, b, last, |t.store.rows[b].paths|, config.chunkSize, minChunks)
    ensures forall i :: i in t.run.work.tasks <==> 0 <= i < |t.store.rows[b].paths|
  {
    t := NewRunLaunches(s, config, minChunks, last, b);
    NewChunksHoldState(s, config, minChunks, last, b);
    NewTasksAreChunks(VersionOf(config.version).value, b, |t.store.rows[b].paths|, config.queries);
  }

  // At least one chunk and at least the minimum, with room for the state after the batch. Above the minimum, one chunk
  // less has no room for all keys written by then, of which there are as many as the last index says.
  ghost predicate HaveRoom(c: Chain, b: Batch, last: Key, count: nat, chunkSize: nat, minChunks: nat)
    requires c.Sealed(b) && last in c.initialWrites
  {
    && count >= minChunks && count >= 1
    && |StateAt(c, b)| <= count * chunkSize
    && (count > minChunks ==> (count - 1) * chunkSize < c.initialWrites[last].index)
  }

  lemma FiveSteps(s: State, start: Action, initialize: Action, t: State)
    requires Enabled(s, start) && Enabled(Next(s, start), initialize)
    requires Leads(Next(Next(s, start), initialize), [ReadBlockRange, StoreDeps, AddRow], t)
    ensures Leads(s, [start, initialize, ReadBlockRange, StoreDeps, AddRow], t)
  {
    LeadsFurther(s, start, initialize, [ReadBlockRange, StoreDeps, AddRow], t);
    assert [start, initialize] + [ReadBlockRange, StoreDeps, AddRow]
        == [start, initialize, ReadBlockRange, StoreDeps, AddRow];
  }

  lemma NewTasksAreChunks(version: Version, b: Batch, count: u64, limit: nat)
    ensures forall i :: i in LaunchTasks(NewProgress(version, b, count), limit).tasks <==> 0 <= i < count
  {
    AllChunksAreNew(version, b, count);
  }

  lemma NewChunksHoldState(s: State, config: Config, minChunks: u64, last: Key, b: Batch)
    requires Inv(s) && s.replica.Sealed(b) && config.chunkSize > 0
    requires IsLastInitialWrite(s.replica.initialWrites, b, last)
    ensures var count := ChunkCount(s.replica.initialWrites[last].index, config.chunkSize, minChunks).value;
            HaveRoom(s.replica, b, last, count, config.chunkSize, minChunks)
  {
    PartIsNumbered(s.replica, s.master);
    LastIndexCountsKeys(s.replica, b, last);
    ChunksHoldAllKeys(s.replica.initialWrites[last].index, config.chunkSize, minChunks);
  }

  lemma AllChunksAreNew(version: Version, b: Batch, count: u64)
    ensures forall i :: i in NewProgress(version, b, count).remaining <==> 0 <= i < count
  {
    var ids := NewProgress(version, b, count).remaining;
    forall i | 0 <= i < count ensures i in ids {
      assert ids[i] == i;
    }
  }

  // The chunks without a path are those of the tasks that have not recorded one.
  lemma MissingAreUnrecorded(s: State)
    requires s.run.Working? && TasksOk(s)
    ensures |Missing(s.store.rows[s.run.progress.batch].paths)|
              == |Those(s.run.work.tasks, HasNoPath)|
  {
    var p, tasks := s.run.progress, s.run.work.tasks;
    var paths := s.store.rows[p.batch].paths;
    WorkListIsExact(paths);
    DistinctCount(Missing(paths));
    forall i: nat ensures i in Missing(paths) <==> i in tasks && !tasks[i].PathRecorded() {
      if i in tasks {
        assert TaskOk(s, p.batch, p.chunkCount, i, tasks[i]);
      }
    }
    assert Elements(Missing(paths)) == Those(tasks, HasNoPath);
  }

  // The only task between recording its path and finishing is the one that holds the master connection.
  lemma OneTaskRecorded(w: Work, i: nat)
    requires ResourcesOk(w) && i in w.tasks && w.tasks[i].Recorded?
    ensures w.gauge == |Those(w.tasks, HasNoPath)| + 1
  {
    var masters, left := Those(w.tasks, HoldsMaster), Those(w.tasks, HasNoPath);
    assert i in masters && |masters| == 1;
    assert |masters - {i}| == 0;
    assert masters == {i};
    forall j | j in w.tasks && w.tasks[j].Recorded? ensures j == i {
      assert j in masters;
    }
    assert Those(w.tasks, IsUnfinished) == left + {i};
  }

  /** The progress that a task reports when it finishes is exact: although tasks run concurrently, the gauge
      then equals the number of chunks without a path, because the only master connection orders the tasks
      between recording a path and decrementing the gauge. */
  lemma ReportedProgressIsExact(trace: seq<State>, k: nat, i: nat)
    requires Behavior(trace) && k < |trace| && Enabled(trace[k], Finish(i))
    ensures var t := Next(trace[k], Finish(i));
            t.run.Working? && t.run.progress.batch in t.store.rows &&
            t.run.work.gauge == |Missing(t.store.rows[t.run.progress.batch].paths)|
  {
    ReachableResources(trace, k);
    ReachableStatesSatisfyInv(trace, k);
    MissingAreUnrecorded(trace[k]);
    OneTaskRecorded(trace[k].run.work, i);
  }
}
