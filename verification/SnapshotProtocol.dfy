/**
 The snapshot creator as a state machine (core/bin/snapshots_creator/src/creator.rs). A step is the code
 between two awaits. Between any two steps the chain may grow, the replica may catch up, and the process may
 stop for good (crash, failed query, or cancellation by `try_join_all`), with uploads that may land later; a later
 run may use any configuration. At most one run is active at a time.
 */
module SnapshotProtocol {
  import opened Wrappers
  import opened HashedKeyChunks
  import opened StorageChain
  import opened SnapshotProgress
  import opened ObjectKeys

  // A stored object. The format of a chunk depends on the snapshot version.
  datatype Blob =
    | Chunk(version: Version, logs: map<Key, SnapshotLog>)
    | Deps(bytecodes: seq<Bytecode>)

  // What survives a crash: metadata rows in Postgres, and the object store, in which objects are found by name.
  datatype Store = Store(rows: map<Batch, Row>, objects: map<string, Blob>)

  // An upload that was under way when its run ended. It may still land, at any later time and more than once.
  datatype Upload = ChunkUpload(batch: Batch, id: nat, blob: Blob) | DepsUpload(batch: Batch, blob: Blob) {
    function Name(): string {
      match this
      case ChunkUpload(b, i, _) => ChunkPath(b, i)
      case DepsUpload(b, _) => DepsPath(b)
    }
  }

  // Where the task of one chunk is.
  datatype Task =
    | Waiting                                // for a permit
    | Permitted                              // for a replica connection
    | Reading                                // holds a replica connection
    | Loaded(logs: map<Key, SnapshotLog>)    // connection dropped, object not stored yet
    | Stored(path: string)                   // waits for the master connection
    | Saving(path: string)                   // holds the master connection
    | Recorded                               // path recorded, gauge not decremented yet
    | Finished
  {
    predicate HoldsPermit() { !Waiting? && !Finished? }
    predicate HoldsReplica() { Reading? }
    predicate HoldsMaster() { Saving? || Recorded? }
    predicate PathRecorded() { Recorded? || Finished? }
  }

  // The tasks of a run and the resources that they share.
  datatype Work = Work(
    limit: nat,
    tasks: map<nat, Task>,
    permits: nat,
    replicaFree: nat,
    masterFree: nat,
    gauge: int)

  datatype Run =
    | Idle
    | Initializing(config: Config, minChunks: u64, batch: Batch)
    | Prepared(progress: Progress, limit: nat)
    | Ranged(progress: Progress, limit: nat, block: Block)
    | DepsStored(progress: Progress, limit: nat, block: Block, depsPath: string)
    | Working(progress: Progress, block: Block, work: Work)

  datatype State = State(master: Chain, replica: Chain, store: Store, run: Run, late: set<Upload>)

  datatype Action =
    | Grow(chain: Chain)
    | Replicate(chain: Chain)
    | Start(config: Config, minChunks: u64)
    | Initialize(last: Key)
    | ReadBlockRange
    | StoreDeps
    | AddRow
    | AcquirePermit(id: nat)
    | ConnectReplica(id: nat)
    | Load(id: nat)
    | StoreChunk(id: nat)
    | ConnectMaster(id: nat)
    | Record(id: nat)
    | Finish(id: nat)
    | Complete
    | Abort
    | Land(upload: Upload)
  {
    predicate OfTask() {
      AcquirePermit? || ConnectReplica? || Load? || StoreChunk? || ConnectMaster? || Record? || Finish?
    }
  }

  function LaunchTasks(progress: Progress, limit: nat): Work {
    Work(limit, map i | i in progress.remaining :: Waiting, limit, limit, 1, |progress.remaining|)
  }

  // ---------- Steps ----------

  ghost predicate Enabled(s: State, a: Action) {
    match a
    case Grow(c) => Extends(s.master, c) && Numbered(c.initialWrites)
    case Replicate(c) => Extends(s.replica, c) && Extends(c, s.master)
    case Start(_, _) =>
      && s.run.Idle?
      && (forall b :: b in s.store.rows ==> |s.store.rows[b].paths| <= U64_MAX)
    case Initialize(last) =>
      && s.run.Initializing?
      && s.run.config.queries > 0
      && VersionOf(s.run.config.version).Some?
      && s.run.batch in s.replica.treeData
      && IsLastInitialWrite(s.replica.initialWrites, s.run.batch, last)
      && s.run.config.chunkSize > 0
    // The replica connections that these steps need are all free, as many as there are.
    case ReadBlockRange => s.run.Prepared? && s.run.limit > 0 && s.replica.Sealed(s.run.progress.batch)
    case StoreDeps => s.run.Ranged? && s.run.limit > 0
    case AddRow => s.run.DepsStored? && s.run.progress.batch !in s.store.rows
    case Complete => s.run.Working? && forall i :: i in s.run.work.tasks ==> s.run.work.tasks[i].Finished?
    case Abort => true
    case Land(upload) => upload in s.late
    case _ =>
      && s.run.Working?
      && TaskEnabled(s.run.work, a)
      && a.id < s.run.progress.chunkCount
      && (a.Record? ==>
            && s.run.progress.batch in s.store.rows
            && a.id < |s.store.rows[s.run.progress.batch].paths|)
  }

  // Whether a task can do its next step as far as permits and connections are concerned.
  predicate TaskEnabled(w: Work, a: Action)
    requires a.OfTask()
  {
    a.id in w.tasks &&
    var t := w.tasks[a.id];
    match a
    case AcquirePermit(_) => t.Waiting? && w.permits > 0
    case ConnectReplica(_) => t.Permitted? && w.replicaFree > 0
    case Load(_) => t.Reading?
    case StoreChunk(_) => t.Loaded?
    case ConnectMaster(_) => t.Stored? && w.masterFree > 0
    case Record(_) => t.Saving?
    case Finish(_) => t.Recorded?
  }

  // Writing to the object store overwrites what has the same name.
  function Put(store: Store, name: string, blob: Blob): Store {
    store.(objects := store.objects[name := blob])
  }

  // The uploads that a run may have begun.
  function UnderWay(replica: Chain, run: Run): set<Upload> {
    match run
    case Ranged(p, _, block) => {DepsUpload(p.batch, Deps(DepsUpTo(replica.deps, block)))}
    case Working(p, _, w) =>
      set i | i in w.tasks && w.tasks[i].Loaded? :: ChunkUpload(p.batch, i, Chunk(p.version, w.tasks[i].logs))
    case _ => {}
  }

  function SetTask(w: Work, i: nat, t: Task): Work {
    w.(tasks := w.tasks[i := t])
  }

  ghost function Next(s: State, a: Action): State
    requires Enabled(s, a)
  {
    match a
    case Grow(c) => s.(master := c)
    case Replicate(c) => s.(replica := c)
    case Start(config, minChunks) =>
      s.(run :=
        match LoadOrInitialize(config, |s.master.lastBlocks|, s.store.rows)
        case Failed => Idle
        case Nothing => Idle
        case Resume(progress) => Prepared(progress, config.queries)
        case Create(b) => Initializing(config, minChunks, b))
    case Initialize(last) =>
      var config := s.run.config;
      var count := ChunkCount(s.replica.initialWrites[last].index, config.chunkSize, s.run.minChunks).value;
      s.(run := Prepared(NewProgress(VersionOf(config.version).value, s.run.batch, count), config.queries))
    case ReadBlockRange =>
      var p := s.run.progress;
      var block := s.replica.lastBlocks[p.batch];
      if p.isNew then s.(run := Ranged(p, s.run.limit, block))
      else s.(run := Working(p, block, LaunchTasks(p, s.run.limit)))
    case StoreDeps =>
      var p := s.run.progress;
      s.(store := Put(s.store, DepsPath(p.batch), Deps(DepsUpTo(s.replica.deps, s.run.block))),
         run := DepsStored(p, s.run.limit, s.run.block, DepsPath(p.batch)))
    case AddRow =>
      var p := s.run.progress;
      var row := Row(p.version, s.run.depsPath, seq(p.chunkCount, i => None));
      s.(store := s.store.(rows := s.store.rows[p.batch := row]),
         run := Working(p, s.run.block, LaunchTasks(p, s.run.limit)))
    case Complete => s.(run := Idle)
    case Abort => s.(run := Idle, late := s.late + UnderWay(s.replica, s.run))
    case Land(upload) => s.(store := Put(s.store, upload.Name(), upload.blob))
    case _ => TaskNext(s, a)
  }

  // The state after a step of a task.
  ghost function TaskNext(s: State, a: Action): State
    requires s.run.Working? && a.OfTask() && TaskEnabled(s.run.work, a) && a.id < s.run.progress.chunkCount
    requires a.Record? ==>
               && s.run.progress.batch in s.store.rows
               && a.id < |s.store.rows[s.run.progress.batch].paths|
  {
    s.(store := StoreAfter(s.store, s.run, a), run := s.run.(work := WorkAfter(s.replica, s.run, a)))
  }

  // The effect of a task step on the tasks and on the shared resources.
  function WorkAfter(replica: Chain, run: Run, a: Action): Work
    requires run.Working? && a.OfTask() && TaskEnabled(run.work, a) && a.id < run.progress.chunkCount
  {
    var w, p := run.work, run.progress;
    match a
    case AcquirePermit(i) => SetTask(w, i, Permitted).(permits := w.permits - 1)
    case ConnectReplica(i) => SetTask(w, i, Reading).(replicaFree := w.replicaFree - 1)
    case Load(i) =>
      var logs := QueryChunk(replica, run.block, p.batch, UniformHashedKeysChunk(i, p.chunkCount));
      SetTask(w, i, Loaded(logs)).(replicaFree := w.replicaFree + 1)
    case StoreChunk(i) => SetTask(w, i, Stored(ChunkPath(p.batch, i)))
    case ConnectMaster(i) => SetTask(w, i, Saving(w.tasks[i].path)).(masterFree := w.masterFree - 1)
    case Record(i) => SetTask(w, i, Recorded)
    case Finish(i) =>
      SetTask(w, i, Finished).(masterFree := w.masterFree + 1, permits := w.permits + 1, gauge := w.gauge - 1)
  }

  // The effect of a task step on the store.
  function StoreAfter(store: Store, run: Run, a: Action): Store
    requires run.Working? && a.OfTask() && TaskEnabled(run.work, a)
    requires a.Record? ==> run.progress.batch in store.rows && a.id < |store.rows[run.progress.batch].paths|
  {
    var p := run.progress;
    match a
    case StoreChunk(i) => Put(store, ChunkPath(p.batch, i), Chunk(p.version, run.work.tasks[i].logs))
    case Record(i) =>
      store.(rows := store.rows[p.batch := RecordPath(store.rows[p.batch], i, run.work.tasks[i].path)])
    case _ => store
  }

  ghost predicate Init(s: State) {
    && s.store == Store(map[], map[])
    && s.run.Idle?
    && s.late == {}
    && Extends(s.replica, s.master) && Numbered(s.master.initialWrites)
  }

  // Finite runs of the whole system.
  ghost predicate IsStep(s: State, t: State) {
    exists a :: Enabled(s, a) && t == Next(s, a)
  }

  ghost predicate Behavior(trace: seq<State>) {
    && |trace| > 0
    && Init(trace[0])
    && forall k :: 0 <= k < |trace| - 1 ==> StepsAt(trace, k)
  }

  ghost predicate StepsAt(trace: seq<State>, k: nat)
    requires k + 1 < |trace|
  {
    IsStep(trace[k], trace[k + 1])
  }

  // ---------- What every reachable state satisfies ----------

  // The logs that chunk `i` of `n` of a batch has to hold.
  ghost function Content(c: Chain, b: Batch, i: nat, n: nat): map<Key, SnapshotLog>
    requires c.Sealed(b) && i < n <= U64_MAX
  {
    Restrict(StateAt(c, b), UniformHashedKeysChunk(i, n))
  }

  ghost predicate RowOk(s: State, b: Batch)
    requires b in s.store.rows
  {
    var row, objects := s.store.rows[b], s.store.objects;
    && s.master.Sealed(b)
    && 0 < |row.paths| <= U64_MAX
    && row.depsPath == DepsPath(b)
    && DepsPath(b) in objects && objects[DepsPath(b)] == Deps(DepsAt(s.master, b))
    && forall i :: 0 <= i < |row.paths| && row.paths[i].Some? ==>
         row.paths[i].value == ChunkPath(b, i) && ChunkPath(b, i) in objects
  }

  // An object belongs to a row, and has the row's version and the content of its range in the row's chunking.
  ghost predicate IsChunkOf(s: State, b: Batch, i: nat, blob: Blob) {
    && b in s.store.rows
    && s.master.Sealed(b)
    && i < |s.store.rows[b].paths| <= U64_MAX
    && blob == Chunk(s.store.rows[b].version, Content(s.master, b, i, |s.store.rows[b].paths|))
  }

  ghost predicate ChunkOk(s: State, b: Batch, i: nat) {
    ChunkPath(b, i) in s.store.objects ==> IsChunkOf(s, b, i, s.store.objects[ChunkPath(b, i)])
  }

  ghost predicate UploadOk(s: State, u: Upload) {
    match u
    case ChunkUpload(b, i, blob) => IsChunkOf(s, b, i, blob)
    case DepsUpload(b, blob) => s.master.Sealed(b) && blob == Deps(DepsAt(s.master, b))
  }

  ghost predicate StoreOk(s: State) {
    && (forall b :: b in s.store.rows ==> RowOk(s, b))
    && (forall b, i :: ChunkOk(s, b, i))
    && (forall u :: u in s.late ==> UploadOk(s, u))
  }

  ghost predicate ProgressOk(s: State, p: Progress) {
    && s.master.Sealed(p.batch)
    && (if p.isNew then
          && p.batch !in s.store.rows
          && 0 < p.chunkCount
          && p.remaining == seq(p.chunkCount, i requires 0 <= i => i)
        else
          && p.batch in s.store.rows
          && |s.store.rows[p.batch].paths| <= U64_MAX
          && p == FromExistingSnapshot(p.batch, s.store.rows[p.batch]))
  }

  ghost predicate BlockOk(s: State, p: Progress, block: Block) {
    s.replica.Sealed(p.batch) && block == s.replica.lastBlocks[p.batch]
  }

  ghost predicate TaskOk(s: State, b: Batch, n: nat, i: nat, t: Task)
    requires s.master.Sealed(b) && b in s.store.rows && i < n == |s.store.rows[b].paths| <= U64_MAX
  {
    && (t.Loaded? ==> t.logs == Content(s.master, b, i, n))
    && (t.Stored? || t.Saving? ==> t.path == ChunkPath(b, i) && ChunkPath(b, i) in s.store.objects)
    && (t.PathRecorded() <==> s.store.rows[b].paths[i].Some?)
  }

  ghost predicate TasksOk(s: State)
    requires s.run.Working?
  {
    var p, w := s.run.progress, s.run.work;
    && s.master.Sealed(p.batch)
    && p.batch in s.store.rows
    && s.store.rows[p.batch].version == p.version
    && |s.store.rows[p.batch].paths| == p.chunkCount
    && Ascending(p.remaining)
    && (forall i :: i in w.tasks <==> i in p.remaining)
    && (forall i :: i in w.tasks ==> i < p.chunkCount && TaskOk(s, p.batch, p.chunkCount, i, w.tasks[i]))
    && (forall i :: 0 <= i < p.chunkCount && i !in w.tasks ==> s.store.rows[p.batch].paths[i].Some?)
  }

  ghost predicate RunOk(s: State) {
    match s.run
    case Idle => true
    case Initializing(_, _, b) => s.master.Sealed(b) && b !in s.store.rows
    case Prepared(p, _) => ProgressOk(s, p)
    case Ranged(p, limit, block) => limit > 0 && p.isNew && ProgressOk(s, p) && BlockOk(s, p, block)
    case DepsStored(p, limit, block, depsPath) =>
      && limit > 0 && p.isNew && ProgressOk(s, p) && BlockOk(s, p, block)
      && depsPath == DepsPath(p.batch)
      && DepsPath(p.batch) in s.store.objects
      && s.store.objects[DepsPath(p.batch)] == Deps(DepsAt(s.master, p.batch))
    case Working(p, block, w) => w.limit > 0 && BlockOk(s, p, block) && TasksOk(s)
  }

  ghost predicate Inv(s: State) {
    Extends(s.replica, s.master) && Numbered(s.master.initialWrites) && StoreOk(s) && RunOk(s)
  }

  // ---------- The invariant is inductive ----------

  lemma ContentStable(c: Chain, d: Chain, b: Batch)
    requires Extends(c, d) && c.Sealed(b)
    ensures d.Sealed(b) && StateAt(d, b) == StateAt(c, b) && DepsAt(d, b) == DepsAt(c, b)
  {
    QueryStable(c, d, b, ALL_KEYS);
  }

  // A state with the same rows, objects and run, whose chains have grown.
  lemma GrowthKeepsInv(s: State, t: State)
    requires Inv(s) && t == s.(master := t.master, replica := t.replica)
    requires Extends(s.master, t.master) && Extends(s.replica, t.replica) && Extends(t.replica, t.master)
    requires Numbered(t.master.initialWrites)
    ensures Inv(t)
  {
    forall b | s.master.Sealed(b)
      ensures t.master.Sealed(b)
      ensures StateAt(t.master, b) == StateAt(s.master, b) && DepsAt(t.master, b) == DepsAt(s.master, b)
    {
      ContentStable(s.master, t.master, b);
    }
    forall b | b in t.store.rows ensures RowOk(t, b) { assert RowOk(s, b); }
    forall b, i ensures ChunkOk(t, b, i) { assert ChunkOk(s, b, i); }
    forall u | u in t.late ensures UploadOk(t, u) { assert UploadOk(s, u); }
    GrowthKeepsRun(s, t);
  }

  lemma GrowthKeepsRun(s: State, t: State)
    requires RunOk(s) && t == s.(master := t.master, replica := t.replica)
    requires Extends(s.master, t.master) && Extends(s.replica, t.replica)
    requires forall b :: s.master.Sealed(b) ==>
               && t.master.Sealed(b)
               && StateAt(t.master, b) == StateAt(s.master, b) && DepsAt(t.master, b) == DepsAt(s.master, b)
    ensures RunOk(t)
  {
    if s.run.Working? {
      var p := s.run.progress;
      forall i | i in s.run.work.tasks
        ensures i < p.chunkCount && TaskOk(t, p.batch, p.chunkCount, i, s.run.work.tasks[i])
      {
        assert TaskOk(s, p.batch, p.chunkCount, i, s.run.work.tasks[i]);
      }
    }
  }

  lemma ExtendsReflexive(c: Chain)
    ensures Extends(c, c)
  {
  }

  lemma ChainStepKeepsInv(s: State, a: Action)
    requires Inv(s) && (a.Grow? || a.Replicate?) && Enabled(s, a)
    ensures Inv(Next(s, a))
  {
    if a.Grow? {
      ExtendsTransitive(s.replica, s.master, a.chain);
      ExtendsReflexive(s.replica);
    } else {
      ExtendsReflexive(s.master);
    }
    GrowthKeepsInv(s, Next(s, a));
  }

  // Steps that leave the chains, the store and the late uploads alone.
  lemma StoreOkDepends(s: State, t: State)
    requires StoreOk(s) && t.store == s.store && t.master == s.master && t.late == s.late
    ensures StoreOk(t)
  {
    forall b | b in t.store.rows ensures RowOk(t, b) { assert RowOk(s, b); }
    forall b, i ensures ChunkOk(t, b, i) { assert ChunkOk(s, b, i); }
    forall u | u in t.late ensures UploadOk(t, u) { assert UploadOk(s, u); }
  }

  // ---------- Writing objects ----------

  // Writing a chunk where it belongs touches no other object, because names are unique.
  lemma PutChunkKeepsStoreOk(s: State, b: Batch, id: nat, blob: Blob)
    requires StoreOk(s) && IsChunkOf(s, b, id, blob)
    ensures StoreOk(s.(store := Put(s.store, ChunkPath(b, id), blob)))
  {
    var t := s.(store := Put(s.store, ChunkPath(b, id), blob));
    forall c | c in t.store.rows ensures RowOk(t, c) {
      assert RowOk(s, c);
      DepsPathsAreUnique(c, b, id);
    }
    forall c, i ensures ChunkOk(t, c, i) {
      assert ChunkOk(s, c, i);
      ChunkPathsAreUnique(c, i, b, id);
    }
    forall u | u in t.late ensures UploadOk(t, u) { assert UploadOk(s, u); }
  }

  lemma PutDepsKeepsStoreOk(s: State, b: Batch)
    requires StoreOk(s) && s.master.Sealed(b)
    ensures StoreOk(s.(store := Put(s.store, DepsPath(b), Deps(DepsAt(s.master, b)))))
  {
    var t := s.(store := Put(s.store, DepsPath(b), Deps(DepsAt(s.master, b))));
    forall c | c in t.store.rows ensures RowOk(t, c) {
      assert RowOk(s, c);
      DepsPathsAreUnique(b, c, 0);
    }
    forall c, i ensures ChunkOk(t, c, i) {
      assert ChunkOk(s, c, i);
      DepsPathsAreUnique(b, c, i);
    }
    forall u | u in t.late ensures UploadOk(t, u) { assert UploadOk(s, u); }
  }

  // More objects, and the same factory dependencies where they matter, do not disturb a run.
  lemma ObjectsKeepRun(s: State, t: State)
    requires RunOk(s) && t == s.(store := t.store) && t.store.rows == s.store.rows
    requires s.store.objects.Keys <= t.store.objects.Keys
    requires s.run.DepsStored? ==>
               t.store.objects[DepsPath(s.run.progress.batch)] == s.store.objects[DepsPath(s.run.progress.batch)]
    ensures RunOk(t)
  {
    if s.run.Working? {
      var p := s.run.progress;
      forall i | i in s.run.work.tasks
        ensures i < p.chunkCount && TaskOk(t, p.batch, p.chunkCount, i, s.run.work.tasks[i])
      {
        assert TaskOk(s, p.batch, p.chunkCount, i, s.run.work.tasks[i]);
      }
    }
  }

  lemma LandedChunkKeepsInv(s: State, u: Upload)
    requires Inv(s) && u.ChunkUpload? && UploadOk(s, u)
    ensures Inv(s.(store := Put(s.store, u.Name(), u.blob)))
  {
    PutChunkKeepsStoreOk(s, u.batch, u.id, u.blob);
    if s.run.DepsStored? { DepsPathsAreUnique(s.run.progress.batch, u.batch, u.id); }
    ObjectsKeepRun(s, s.(store := Put(s.store, u.Name(), u.blob)));
  }

  lemma LandedDepsKeepInv(s: State, u: Upload)
    requires Inv(s) && u.DepsUpload? && UploadOk(s, u)
    ensures Inv(s.(store := Put(s.store, u.Name(), u.blob)))
  {
    PutDepsKeepsStoreOk(s, u.batch);
    if s.run.DepsStored? { DepsPathsAreUnique(s.run.progress.batch, u.batch, 0); }
    ObjectsKeepRun(s, s.(store := Put(s.store, u.Name(), u.blob)));
  }

  /** An upload that lands after its run has ended does no harm: its object is the one that has to be there. */
  lemma LandKeepsInv(s: State, a: Action)
    requires Inv(s) && a.Land? && Enabled(s, a)
    ensures Inv(Next(s, a))
  {
    assert UploadOk(s, a.upload);
    if a.upload.ChunkUpload? {
      LandedChunkKeepsInv(s, a.upload);
    } else {
      LandedDepsKeepInv(s, a.upload);
    }
  }

  /** The upload of a task whose run is stopped before it is done may land later, at any time, and then its object is
      found under the name of the chunk. */
  lemma StoppedUploadMayLand(s: State, i: nat)
    requires s.run.Working? && i in s.run.work.tasks && s.run.work.tasks[i].Loaded?
    ensures var p, logs := s.run.progress, s.run.work.tasks[i].logs;
            var land := Land(ChunkUpload(p.batch, i, Chunk(p.version, logs)));
            var t := Next(s, Abort);
            && t.run.Idle? && t.store == s.store && Enabled(t, land)
            && ChunkPath(p.batch, i) in Next(t, land).store.objects
            && Next(t, land).store.objects[ChunkPath(p.batch, i)] == Chunk(p.version, logs)
  {
  }

  /** So may the upload of the factory dependencies. */
  lemma StoppedDepsUploadMayLand(s: State)
    requires s.run.Ranged?
    ensures var p, deps := s.run.progress, Deps(DepsUpTo(s.replica.deps, s.run.block));
            var t := Next(s, Abort);
            && t.run.Idle? && t.store == s.store && Enabled(t, Land(DepsUpload(p.batch, deps)))
            && DepsPath(p.batch) in Next(t, Land(DepsUpload(p.batch, deps))).store.objects
            && Next(t, Land(DepsUpload(p.batch, deps))).store.objects[DepsPath(p.batch)] == deps
  {
  }

  // ---------- Setting up a run ----------

  // Tasks of a fresh work list fit a row whose missing paths are that list.
  lemma LaunchedTasksOk(s: State, p: Progress, block: Block, limit: nat)
    requires s.run == Working(p, block, LaunchTasks(p, limit))
    requires s.master.Sealed(p.batch) && p.batch in s.store.rows
    requires s.store.rows[p.batch].version == p.version
    requires |s.store.rows[p.batch].paths| == p.chunkCount
    requires p.remaining == Missing(s.store.rows[p.batch].paths)
    ensures TasksOk(s)
  {
    WorkListIsExact(s.store.rows[p.batch].paths);
  }

  lemma LaunchKeepsInv(s: State, a: Action)
    requires Inv(s) && a.ReadBlockRange? && Enabled(s, a)
    ensures Inv(Next(s, a))
  {
    var t := Next(s, a);
    StoreOkDepends(s, t);
    var p := s.run.progress;
    if !p.isNew {
      LaunchedTasksOk(t, p, t.run.block, s.run.limit);
    }
  }

  lemma SetupKeepsInv(s: State, a: Action)
    requires Inv(s) && Enabled(s, a) && (a.Start? || a.Complete?)
    ensures Inv(Next(s, a))
  {
    StoreOkDepends(s, Next(s, a));
  }

  // The number of keys is at least one, so that a new snapshot has a chunk, whatever the minimum.
  lemma InitializeKeepsInv(s: State, a: Action)
    requires Inv(s) && a.Initialize? && Enabled(s, a)
    ensures Inv(Next(s, a))
  {
    StoreOkDepends(s, Next(s, a));
    PartIsNumbered(s.replica, s.master);
    ChunksHoldAllKeys(s.replica.initialWrites[a.last].index, s.run.config.chunkSize, s.run.minChunks);
  }

  lemma AbortKeepsInv(s: State, a: Action)
    requires Inv(s) && a.Abort?
    ensures Inv(Next(s, a))
  {
    var t := Next(s, a);
    StoreOkDepends(s, s.(run := Idle));
    forall b | b in t.store.rows ensures RowOk(t, b) { assert RowOk(s, b); }
    forall b, i ensures ChunkOk(t, b, i) { assert ChunkOk(s, b, i); }
    forall u | u in t.late ensures UploadOk(t, u) {
      if u in s.late {
        assert UploadOk(s, u);
      } else if s.run.Ranged? {
        ContentStable(s.replica, s.master, s.run.progress.batch);
      } else {
        var p := s.run.progress;
        assert TaskOk(s, p.batch, p.chunkCount, u.id, s.run.work.tasks[u.id]);
      }
    }
  }

  lemma StoreDepsKeepsInv(s: State, a: Action)
    requires Inv(s) && a.StoreDeps? && Enabled(s, a)
    ensures Inv(Next(s, a))
  {
    var p := s.run.progress;
    ContentStable(s.replica, s.master, p.batch);
    PutDepsKeepsStoreOk(s, p.batch);
    StoreOkDepends(s.(store := Next(s, a).store), Next(s, a));
  }

  lemma AddRowKeepsStoreOk(s: State, b: Batch, row: Row)
    requires StoreOk(s) && b !in s.store.rows && s.master.Sealed(b)
    requires 0 < |row.paths| <= U64_MAX && row.depsPath == DepsPath(b)
    requires forall i :: 0 <= i < |row.paths| ==> row.paths[i].None?
    requires DepsPath(b) in s.store.objects && s.store.objects[DepsPath(b)] == Deps(DepsAt(s.master, b))
    ensures StoreOk(s.(store := s.store.(rows := s.store.rows[b := row])))
  {
    var t := s.(store := s.store.(rows := s.store.rows[b := row]));
    forall c | c in t.store.rows ensures RowOk(t, c) {
      if c != b { assert RowOk(s, c); }
    }
    forall c, i ensures ChunkOk(t, c, i) { assert ChunkOk(s, c, i); }
    forall u | u in t.late ensures UploadOk(t, u) { assert UploadOk(s, u); }
  }

  lemma AddRowKeepsInv(s: State, a: Action)
    requires Inv(s) && a.AddRow? && Enabled(s, a)
    ensures Inv(Next(s, a))
  {
    var t := Next(s, a);
    var p := s.run.progress;
    AddRowKeepsStoreOk(s, p.batch, t.store.rows[p.batch]);
    StoreOkDepends(s.(store := t.store), t);
    WorkListIsExact(t.store.rows[p.batch].paths);
    LaunchedTasksOk(t, p, t.run.block, s.run.limit);
  }

  // ---------- Steps of tasks ----------

  // A step of task `id` keeps the other tasks consistent, because their paths and objects stay.
  lemma OneTaskMoves(s: State, t: State, id: nat)
    requires s.run.Working? && t.run.Working? && TasksOk(s)
    requires t.master == s.master && t.run.progress == s.run.progress
    requires id in s.run.work.tasks && id in t.run.work.tasks
    requires t.run.work.tasks == s.run.work.tasks[id := t.run.work.tasks[id]]
    requires s.store.objects.Keys <= t.store.objects.Keys
    requires var b := s.run.progress.batch;
             && b in t.store.rows && t.store.rows[b].version == s.store.rows[b].version
             && |t.store.rows[b].paths| == |s.store.rows[b].paths|
             && (forall i :: 0 <= i < |s.store.rows[b].paths| && i != id ==>
                   t.store.rows[b].paths[i] == s.store.rows[b].paths[i])
             && TaskOk(t, b, s.run.progress.chunkCount, id, t.run.work.tasks[id])
    ensures TasksOk(t)
  {
    var p := s.run.progress;
    forall i | i in t.run.work.tasks
      ensures i < p.chunkCount && TaskOk(t, p.batch, p.chunkCount, i, t.run.work.tasks[i])
    {
      assert TaskOk(s, p.batch, p.chunkCount, i, s.run.work.tasks[i]);
    }
  }

  lemma ResourceStepKeepsTasks(s: State, a: Action)
    requires s.run.Working? && TasksOk(s)
    requires a.AcquirePermit? || a.ConnectReplica? || a.ConnectMaster? || a.Finish?
    requires TaskEnabled(s.run.work, a) && a.id < s.run.progress.chunkCount
    ensures TasksOk(TaskNext(s, a))
  {
    var t := TaskNext(s, a);
    var p := s.run.progress;
    assert TaskOk(s, p.batch, p.chunkCount, a.id, s.run.work.tasks[a.id]);
    OneTaskMoves(s, t, a.id);
  }

  lemma ResourceStepKeepsInv(s: State, a: Action)
    requires Inv(s) && Enabled(s, a)
    requires a.AcquirePermit? || a.ConnectReplica? || a.ConnectMaster? || a.Finish?
    ensures Inv(Next(s, a))
  {
    StoreOkDepends(s, Next(s, a));
    ResourceStepKeepsTasks(s, a);
  }

  lemma LoadKeepsInv(s: State, a: Action)
    requires Inv(s) && a.Load? && Enabled(s, a)
    ensures Inv(Next(s, a))
  {
    var t := Next(s, a);
    var p, id := s.run.progress, a.id;
    var range := UniformHashedKeysChunk(id, p.chunkCount);
    StoreOkDepends(s, t);
    QueryStable(s.replica, s.master, p.batch, range);
    QueryIsRestriction(s.master, p.batch, range);
    assert TaskOk(s, p.batch, p.chunkCount, id, s.run.work.tasks[id]);
    OneTaskMoves(s, t, a.id);
  }

  lemma WriteKeepsTasks(s: State, a: Action)
    requires s.run.Working? && TasksOk(s) && (a.StoreChunk? || a.Record?)
    requires TaskEnabled(s.run.work, a) && a.id < s.run.progress.chunkCount
    ensures TasksOk(TaskNext(s, a))
  {
    var p := s.run.progress;
    assert TaskOk(s, p.batch, p.chunkCount, a.id, s.run.work.tasks[a.id]);
    OneTaskMoves(s, TaskNext(s, a), a.id);
  }

  lemma StoreChunkKeepsInv(s: State, a: Action)
    requires Inv(s) && a.StoreChunk? && Enabled(s, a)
    ensures Inv(Next(s, a))
  {
    var t := Next(s, a);
    var p, logs := s.run.progress, s.run.work.tasks[a.id].logs;
    assert TaskOk(s, p.batch, p.chunkCount, a.id, s.run.work.tasks[a.id]);
    PutChunkKeepsStoreOk(s, p.batch, a.id, Chunk(p.version, logs));
    StoreOkDepends(s.(store := t.store), t);
    WriteKeepsTasks(s, a);
  }

  lemma RecordKeepsStoreOk(s: State, b: Batch, id: nat)
    requires StoreOk(s) && b in s.store.rows && id < |s.store.rows[b].paths|
    requires ChunkPath(b, id) in s.store.objects
    ensures var row := RecordPath(s.store.rows[b], id, ChunkPath(b, id));
            StoreOk(s.(store := s.store.(rows := s.store.rows[b := row])))
  {
    var row := RecordPath(s.store.rows[b], id, ChunkPath(b, id));
    var t := s.(store := s.store.(rows := s.store.rows[b := row]));
    forall c | c in t.store.rows ensures RowOk(t, c) { assert RowOk(s, c); }
    forall c, i ensures ChunkOk(t, c, i) { assert ChunkOk(s, c, i); }
    forall u | u in t.late ensures UploadOk(t, u) { assert UploadOk(s, u); }
  }

  lemma RecordKeepsInv(s: State, a: Action)
    requires Inv(s) && a.Record? && Enabled(s, a)
    ensures Inv(Next(s, a))
  {
    var t := Next(s, a);
    var p := s.run.progress;
    assert TaskOk(s, p.batch, p.chunkCount, a.id, s.run.work.tasks[a.id]);
    RecordKeepsStoreOk(s, p.batch, a.id);
    StoreOkDepends(s.(store := t.store), t);
    WriteKeepsTasks(s, a);
  }

  lemma StepKeepsInv(s: State, a: Action)
    requires Inv(s) && Enabled(s, a)
    ensures Inv(Next(s, a))
  {
    if a.Grow? || a.Replicate? {
      ChainStepKeepsInv(s, a);
    } else if a.Initialize? {
      InitializeKeepsInv(s, a);
    } else if a.ReadBlockRange? {
      LaunchKeepsInv(s, a);
    } else if a.StoreDeps? {
      StoreDepsKeepsInv(s, a);
    } else if a.AddRow? {
      AddRowKeepsInv(s, a);
    } else if a.Load? {
      LoadKeepsInv(s, a);
    } else if a.StoreChunk? {
      StoreChunkKeepsInv(s, a);
    } else if a.Record? {
      RecordKeepsInv(s, a);
    } else if a.OfTask() {
      ResourceStepKeepsInv(s, a);
    } else if a.Abort? {
      AbortKeepsInv(s, a);
    } else if a.Land? {
      LandKeepsInv(s, a);
    } else {
      SetupKeepsInv(s, a);
    }
  }

  lemma StepOfBehavior(trace: seq<State>, k: nat) returns (a: Action)
    requires Behavior(trace) && k + 1 < |trace|
    ensures Enabled(trace[k], a) && trace[k + 1] == Next(trace[k], a)
  {
    assert StepsAt(trace, k);
    a :| Enabled(trace[k], a) && trace[k + 1] == Next(trace[k], a);
  }

  lemma InitSatisfiesInv(s: State)
    requires Init(s)
    ensures Inv(s)
  {
    forall b, i ensures ChunkOk(s, b, i) {
    }
  }

  lemma BehaviorStepKeepsInv(trace: seq<State>, k: nat)
    requires Behavior(trace) && k + 1 < |trace| && Inv(trace[k])
    ensures Inv(trace[k + 1])
  {
    var a := StepOfBehavior(trace, k);
    StepKeepsInv(trace[k], a);
  }

  /** Every state of every behaviour satisfies the invariant. */
  lemma {:induction false} ReachableStatesSatisfyInv(trace: seq<State>, k: nat)
    requires Behavior(trace) && k < |trace|
    ensures Inv(trace[k])
  {
    if k == 0 {
      InitSatisfiesInv(trace[0]);
    } else {
      ReachableStatesSatisfyInv(trace, k - 1);
      BehaviorStepKeepsInv(trace, k - 1);
    }
  }

  // A behaviour that ends in `s` and goes through `start`.
  ghost predicate IsPath(trace: seq<State>, j: nat, start: State, s: State) {
    Behavior(trace) && j < |trace| && trace[j] == start && trace[|trace| - 1] == s
  }

  ghost predicate Reaches(start: State, s: State) {
    exists trace, j :: IsPath(trace, j, start, s)
  }

  ghost predicate Reachable(s: State) {
    Reaches(s, s)
  }

  lemma ReachesNext(start: State, s: State, a: Action)
    requires Reaches(start, s) && Enabled(s, a)
    ensures Reaches(start, Next(s, a))
  {
    var trace, j :| IsPath(trace, j, start, s);
    var more := trace + [Next(s, a)];
    forall k | 0 <= k < |more| - 1 ensures StepsAt(more, k) {
      if k < |trace| - 1 { assert StepsAt(trace, k); }
    }
    assert IsPath(more, j, start, Next(s, a));
  }

  lemma ReachedSatisfiesInv(start: State, s: State)
    requires Reaches(start, s)
    ensures Inv(s)
  {
    var trace, j :| IsPath(trace, j, start, s);
    ReachableStatesSatisfyInv(trace, |trace| - 1);
  }
}
