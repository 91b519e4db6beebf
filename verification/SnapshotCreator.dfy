/**
 The creator as an object that updates its stores, permits and gauge in place
 (core/bin/snapshots_creator/src/creator.rs:80-158 and 344-428). Each method below is the code of a task
 between two awaits and does exactly the corresponding step of the state machine; `ProcessChunks` runs the
 tasks to the end under an arbitrary schedule.
 */
module SnapshotCreation {
  import opened Wrappers
  import opened HashedKeyChunks
  import opened StorageChain
  import opened SnapshotProgress
  import opened ObjectKeys
  import opened SnapshotProtocol
  import opened SnapshotLiveness

  lemma ReachedResources(start: State, s: State)
    requires Reaches(start, s) && s.run.Working?
    ensures ResourcesOk(s.run.work)
  {
    var trace, j :| IsPath(trace, j, start, s);
    ReachableResources(trace, |trace| - 1);
  }

  // What a reachable state at work guarantees to its tasks.
  lemma ReachedParts(start: State, s: State)
    requires Reaches(start, s) && s.run.Working?
    ensures s.run.work.limit > 0
    ensures forall i :: i in s.run.work.tasks ==> i < s.run.progress.chunkCount
    ensures var p := s.run.progress;
            p.batch in s.store.rows && |s.store.rows[p.batch].paths| == p.chunkCount
  {
    ReachedSatisfiesInv(start, s);
  }

  lemma LaunchedHasSevenSteps(s: State)
    requires Reachable(s) && s.run.Working?
    ensures var b := s.run.progress.batch;
            JustLaunched(s.run) ==> b in s.store.rows && StepsLeftIn(s) == 7 * |Missing(s.store.rows[b].paths)|
  {
    if JustLaunched(s.run) {
      ReachedSatisfiesInv(s, s);
      LaunchedSteps(s);
    }
  }

  lemma StepsRemain(start: State, s: State)
    requires Reaches(start, s) && s.run.Working?
    requires exists i :: i in s.run.work.tasks && !s.run.work.tasks[i].Finished?
    ensures StepsLeftIn(s) > 0
  {
    ReachedSatisfiesInv(start, s);
    NothingLeft(s.run.work.tasks, s.run.progress.remaining);
  }

  lemma TaskStepReaches(start: State, s: State, a: Action)
    requires Reaches(start, s) && s.run.Working? && a.OfTask() && TaskEnabled(s.run.work, a)
    requires a.id < s.run.progress.chunkCount
    requires s.run.progress.batch in s.store.rows && a.id < |s.store.rows[s.run.progress.batch].paths|
    ensures Reaches(start, TaskNext(s, a))
    ensures StepsLeftIn(TaskNext(s, a)) == StepsLeftIn(s) - 1
  {
    ReachedSatisfiesInv(start, s);
    TaskStepIsEnabled(s, a);
    UndisturbedStep(s, a);
    assert Next(s, a) == TaskNext(s, a);
    ReachesNext(start, s, a);
  }

  lemma GrowthReaches(start: State, s: State, master: Chain, replica: Chain)
    requires Reaches(start, s) && Numbered(master.initialWrites)
    requires Extends(s.master, master) && Extends(s.replica, replica) && Extends(replica, master)
    ensures Reaches(start, s.(master := master, replica := replica))
  {
    ReachesNext(start, s, Grow(master));
    ReachesNext(start, s.(master := master), Replicate(replica));
  }

  // What is reached when all tasks are finished.
  lemma FinishedIsComplete(start: State, s: State)
    requires Reaches(start, s) && s.run.Working?
    requires forall i :: i in s.run.work.tasks ==> s.run.work.tasks[i].Finished?
    ensures s.run.progress.batch in s.store.rows && s.store.rows[s.run.progress.batch].IsComplete()
    ensures StepsLeftIn(s) == 0
  {
    ReachedSatisfiesInv(start, s);
    FinishedRunIsComplete(s);
    NothingLeft(s.run.work.tasks, s.run.progress.remaining);
  }

  // Successive states of the chain and of its replica.
  ghost predicate Growing(masters: seq<Chain>, replicas: seq<Chain>) {
    0 < |masters| == |replicas| && forall i :: 0 <= i < |masters| - 1 ==> GrowsAt(masters, replicas, i)
  }

  ghost predicate GrowsAt(masters: seq<Chain>, replicas: seq<Chain>, i: nat)
    requires i + 1 < |masters| == |replicas|
  {
    && Extends(masters[i], masters[i + 1]) && Numbered(masters[i + 1].initialWrites)
    && Extends(replicas[i], replicas[i + 1]) && Extends(replicas[i + 1], masters[i + 1])
  }

  class SnapshotCreator {
    // The chains, which only the rest of the system changes, and uploads that earlier runs left behind.
    ghost var master: Chain
    var replica: Chain
    ghost const late: set<Upload>
    // Postgres and the object store.
    var rows: map<Batch, Row>
    var objects: map<string, Blob>
    // The snapshot in progress and its last L2 block.
    const progress: Progress
    const block: Block
    // Semaphore, connection pools, gauge and task states.
    const limit: nat
    var permits: nat
    var replicaFree: nat
    var masterFree: nat
    var gauge: int
    var tasks: map<nat, Task>

    ghost function Abs(): State
      reads this
    {
      State(master, replica, TheStore(), TheRun(), late)
    }

    function TheWork(): Work
      reads this
    {
      Work(limit, tasks, permits, replicaFree, masterFree, gauge)
    }

    // Everything that the object does is a behaviour of the state machine.
    ghost predicate Valid()
      reads this
    {
      Reachable(Abs())
    }

    // `try_join_all` is about to poll the tasks of a snapshot whose row exists.
    constructor (ghost state: State, replica: Chain, store: Store, progress: Progress, block: Block, limit: nat)
      requires Reachable(state) && state.replica == replica && state.store == store
      requires state.run == Working(progress, block, LaunchTasks(progress, limit))
      ensures Valid() && Abs() == state
    {
      master, late := state.master, state.late;
      this.replica := replica;
      rows, objects := store.rows, store.objects;
      this.progress, this.block, this.limit := progress, block, limit;
      permits, replicaFree, masterFree := limit, limit, 1;
      gauge := |progress.remaining|;
      tasks := map i | i in progress.remaining :: Waiting;
    }

    function TheStore(): Store
      reads this
    {
      Store(rows, objects)
    }

    function TheRun(): Run
      reads this
    {
      Working(progress, block, TheWork())
    }

    // The object is as step `a` of the state machine leaves it.
    ghost predicate Did(store: Store, run: Run, a: Action)
      requires run.Working? && a.OfTask() && TaskEnabled(run.work, a) && a.id < run.progress.chunkCount
      requires a.Record? ==> run.progress.batch in store.rows && a.id < |store.rows[run.progress.batch].paths|
      reads this
    {
      TheStore() == StoreAfter(store, run, a) && TheWork() == WorkAfter(replica, run, a)
    }

    method AcquirePermit(i: nat)
      requires i < progress.chunkCount && TaskEnabled(TheWork(), Action.AcquirePermit(i))
      modifies this`tasks, this`permits
      ensures Did(old(TheStore()), old(TheRun()), Action.AcquirePermit(i))
    {
      permits := permits - 1;
      tasks := tasks[i := Permitted];
    }

    method ConnectToReplica(i: nat)
      requires i < progress.chunkCount && TaskEnabled(TheWork(), ConnectReplica(i))
      modifies this`tasks, this`replicaFree
      ensures Did(old(TheStore()), old(TheRun()), ConnectReplica(i))
    {
      replicaFree := replicaFree - 1;
      tasks := tasks[i := Reading];
    }

    method LoadChunk(i: nat)
      requires i < progress.chunkCount && TaskEnabled(TheWork(), Load(i))
      modifies this`tasks, this`replicaFree
      ensures Did(old(TheStore()), old(TheRun()), Load(i))
    {
      var hashedKeysRange := UniformHashedKeysChunk(i, progress.chunkCount);
      var logs := QueryChunk(replica, block, progress.batch, hashedKeysRange);
      replicaFree := replicaFree + 1;
      tasks := tasks[i := Loaded(logs)];
    }

    method SaveChunk(i: nat)
      requires i < progress.chunkCount && TaskEnabled(TheWork(), StoreChunk(i))
      modifies this`tasks, this`objects
      ensures Did(old(TheStore()), old(TheRun()), StoreChunk(i))
    {
      objects := objects[ChunkPath(progress.batch, i) := Chunk(progress.version, tasks[i].logs)];
      tasks := tasks[i := Stored(ChunkPath(progress.batch, i))];
    }

    method ConnectToMaster(i: nat)
      requires i < progress.chunkCount && TaskEnabled(TheWork(), ConnectMaster(i))
      modifies this`tasks, this`masterFree
      ensures Did(old(TheStore()), old(TheRun()), ConnectMaster(i))
    {
      masterFree := masterFree - 1;
      tasks := tasks[i := Saving(tasks[i].path)];
    }

    method RecordFilepath(i: nat)
      requires i < progress.chunkCount && TaskEnabled(TheWork(), Record(i))
      requires progress.batch in rows && i < |rows[progress.batch].paths|
      modifies this`tasks, this`rows
      ensures Did(old(TheStore()), old(TheRun()), Record(i))
    {
      var row := rows[progress.batch];
      rows := rows[progress.batch := row.(paths := row.paths[i := Some(tasks[i].path)])];
      tasks := tasks[i := Recorded];
    }

    method FinishTask(i: nat)
      requires i < progress.chunkCount && TaskEnabled(TheWork(), Finish(i))
      modifies this`tasks, this`masterFree, this`permits, this`gauge
      ensures Did(old(TheStore()), old(TheRun()), Finish(i))
    {
      gauge := gauge - 1;
      masterFree := masterFree + 1;
      permits := permits + 1;
      tasks := tasks[i := Finished];
    }

    // One step of task `i`.
    method Advance(i: nat)
      requires i < progress.chunkCount && i in tasks && !tasks[i].Finished?
      requires TaskEnabled(TheWork(), NextAction(tasks[i], i))
      requires progress.batch in rows && i < |rows[progress.batch].paths|
      modifies this`rows, this`objects, this`permits, this`replicaFree, this`masterFree, this`gauge, this`tasks
      ensures Did(old(TheStore()), old(TheRun()), NextAction(old(tasks)[i], i))
    {
      match tasks[i]
      case Waiting => AcquirePermit(i);
      case Permitted => ConnectToReplica(i);
      case Reading => LoadChunk(i);
      case Loaded(_) => SaveChunk(i);
      case Stored(_) => ConnectToMaster(i);
      case Saving(_) => RecordFilepath(i);
      case Recorded => FinishTask(i);
    }

    method MovableTaskId() returns (i: nat)
      requires ResourcesOk(TheWork()) && limit > 0 && exists i :: i in tasks && !tasks[i].Finished?
      ensures i in tasks && !tasks[i].Finished? && TaskEnabled(TheWork(), NextAction(tasks[i], i))
    {
      ghost var some :| some in tasks && !tasks[some].Finished?;
      ghost var movable := MovableTask(TheWork(), some);
      i :| i in tasks && !tasks[i].Finished? && TaskEnabled(TheWork(), NextAction(tasks[i], i));
    }

    // One step of some task that can move, as the scheduler picks it.
    method Poll() returns (ghost a: Action)
      requires ResourcesOk(TheWork()) && limit > 0 && exists i :: i in tasks && !tasks[i].Finished?
      requires forall i :: i in tasks ==> i < progress.chunkCount
      requires progress.batch in rows && |rows[progress.batch].paths| == progress.chunkCount
      modifies this`rows, this`objects, this`permits, this`replicaFree, this`masterFree, this`gauge, this`tasks
      ensures a.OfTask() && TaskEnabled(old(TheWork()), a) && a.id < progress.chunkCount
      ensures progress.batch in old(rows) && a.id < |old(rows)[progress.batch].paths|
      ensures Abs() == TaskNext(old(Abs()), a)
    {
      var i := MovableTaskId();
      a := NextAction(tasks[i], i);
      Advance(i);
    }

    // The rest of the system moves on: the chain grows and the replica catches up.
    method Observe(ghost newMaster: Chain, newReplica: Chain)
      modifies this`master, this`replica
      ensures Abs() == old(Abs()).(master := newMaster, replica := newReplica)
    {
      master, replica := newMaster, newReplica;
    }

    // A step of a task, and then of the rest of the system.
    method Turn(ghost start: State, ghost newMaster: Chain, newReplica: Chain)
      requires Reaches(start, Abs()) && exists i :: i in tasks && !tasks[i].Finished?
      requires Extends(master, newMaster) && Extends(replica, newReplica) && Extends(newReplica, newMaster)
      requires Numbered(newMaster.initialWrites)
      modifies this
      ensures Reaches(start, Abs()) && master == newMaster && replica == newReplica
      ensures StepsLeftIn(Abs()) == old(StepsLeftIn(Abs())) - 1
    {
      ghost var before := Abs();
      ReachedResources(start, before);
      ReachedParts(start, before);
      ghost var a := Poll();
      TaskStepReaches(start, before, a);
      GrowthReaches(start, Abs(), newMaster, newReplica);
      Observe(newMaster, newReplica);
    }

    /** Without interruption every schedule of the tasks ends with the snapshot complete, after exactly as many steps as
        were left, which are seven per missing chunk from the launch on; whatever the chain and the replica come to in
        between, step by step. */
    method ProcessChunks(ghost masters: seq<Chain>, replicas: seq<Chain>) returns (steps: nat)
      requires Valid() && Growing(masters, replicas) && masters[0] == master && replicas[0] == replica
      requires |masters| > StepsLeftIn(Abs())
      modifies this
      ensures Reaches(old(Abs()), Abs())
      ensures steps == old(StepsLeftIn(Abs()))
      ensures old(JustLaunched(TheRun())) ==>
                progress.batch in old(rows) && steps == 7 * |Missing(old(rows)[progress.batch].paths)|
      ensures progress.batch in rows && rows[progress.batch].IsComplete()
      ensures gauge == 0 && permits == limit && replicaFree == limit && masterFree == 1
    {
      steps := 0;
      ghost var start := Abs();
      LaunchedHasSevenSteps(start);
      while exists i :: i in tasks && !tasks[i].Finished?
        invariant Reaches(start, Abs())
        invariant steps + StepsLeftIn(Abs()) == StepsLeftIn(start)
        invariant master == masters[steps] && replica == replicas[steps]
        decreases StepsLeftIn(Abs())
      {
        StepsRemain(start, Abs());
        assert GrowsAt(masters, replicas, steps);
        Turn(start, masters[steps + 1], replicas[steps + 1]);
        steps := steps + 1;
      }
      ReachedResources(start, Abs());
      FinishedIsComplete(start, Abs());
      NothingHeld();
    }

    lemma NothingHeld()
      requires ResourcesOk(TheWork()) && forall i :: i in tasks ==> tasks[i].Finished?
      ensures gauge == 0 && permits == limit && replicaFree == limit && masterFree == 1
    {
      assert Those(tasks, HoldsPermit) == {};
      assert Those(tasks, HoldsReplica) == {};
      assert Those(tasks, HoldsMaster) == {};
      assert Those(tasks, IsUnfinished) == {};
    }
  }
}
