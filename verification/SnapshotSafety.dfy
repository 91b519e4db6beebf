/**
 What the snapshot creator guarantees about its stores, over every behaviour: all crashes, resumptions,
 configuration changes and chain growth included.
 */
module SnapshotSafety {
  import opened Wrappers
  import opened HashedKeyChunks
  import opened StorageChain
  import opened SnapshotProgress
  import opened ObjectKeys
  import opened SnapshotProtocol

  /** A recorded path names a stored object with the row's version and exactly the logs of its range in the
      row's own chunking; and an object with the name of a chunk exists only for a batch that has a row. */
  lemma RecordedPathsAreSound(trace: seq<State>, k: nat, b: Batch, i: nat)
    requires Behavior(trace) && k < |trace|
    ensures var s := trace[k];
            b in s.store.rows && i < |s.store.rows[b].paths| && s.store.rows[b].paths[i].Some? ==>
              && s.store.rows[b].paths[i].value in s.store.objects
              && IsChunkOf(s, b, i, s.store.objects[s.store.rows[b].paths[i].value])
    ensures var s := trace[k];
            ChunkPath(b, i) in s.store.objects ==> IsChunkOf(s, b, i, s.store.objects[ChunkPath(b, i)])
  {
    ReachableStatesSatisfyInv(trace, k);
    var s := trace[k];
    if b in s.store.rows { assert RowOk(s, b); }
    assert ChunkOk(s, b, i);
  }

  // ---------- A complete snapshot is exact ----------

  // All recorded paths lead to chunk objects.
  predicate Readable(objects: map<string, Blob>, paths: seq<Option<string>>) {
    forall i :: 0 <= i < |paths| ==> paths[i].Some? && paths[i].value in objects && objects[paths[i].value].Chunk?
  }

  // What recovery reads: the logs of the objects that the first `n` paths lead to, put together.
  function Assembled(objects: map<string, Blob>, paths: seq<Option<string>>, n: nat): map<Key, SnapshotLog>
    requires Readable(objects, paths) && n <= |paths|
  {
    if n == 0 then map[] else Assembled(objects, paths, n - 1) + objects[paths[n - 1].value].logs
  }

  // Each path leads to the content of its range.
  ghost predicate HoldsContent(objects: map<string, Blob>, paths: seq<Option<string>>, c: Chain, b: Batch)
    requires Readable(objects, paths) && c.Sealed(b)
  {
    0 < |paths| <= U64_MAX
    && forall i :: 0 <= i < |paths| ==> objects[paths[i].value].logs == Content(c, b, i, |paths|)
  }

  lemma {:induction false} AssembledHolds(objects: map<string, Blob>, paths: seq<Option<string>>, n: nat, c: Chain,
                                          b: Batch)
    requires Readable(objects, paths) && n <= |paths| && c.Sealed(b) && HoldsContent(objects, paths, c, b)
    ensures forall key :: key in Assembled(objects, paths, n) <==> key in StateAt(c, b) && ChunkOf(key, |paths|) < n
    ensures forall key :: key in Assembled(objects, paths, n) ==>
              Assembled(objects, paths, n)[key] == StateAt(c, b)[key]
  {
    if n > 0 {
      AssembledHolds(objects, paths, n - 1, c, b);
      forall key: Key
        ensures UniformHashedKeysChunk(n - 1, |paths|).Contains(key) <==> n - 1 == ChunkOf(key, |paths|)
      {
        ChunksPartitionKeys(key, n - 1, |paths|);
      }
      assert objects[paths[n - 1].value].logs == Content(c, b, n - 1, |paths|);
    }
  }

  lemma {:induction false} AssembledIsState(objects: map<string, Blob>, paths: seq<Option<string>>, c: Chain, b: Batch)
    requires Readable(objects, paths) && c.Sealed(b) && HoldsContent(objects, paths, c, b)
    ensures Assembled(objects, paths, |paths|) == StateAt(c, b)
  {
    AssembledHolds(objects, paths, |paths|, c, b);
    assert Assembled(objects, paths, |paths|).Keys == StateAt(c, b).Keys;
  }

  // All paths of a complete row lead to what the state of the chain demands.
  lemma CompleteRowHoldsContent(s: State, b: Batch)
    requires Inv(s) && b in s.store.rows && s.store.rows[b].IsComplete()
    ensures s.master.Sealed(b)
    ensures var paths := s.store.rows[b].paths;
            Readable(s.store.objects, paths) && HoldsContent(s.store.objects, paths, s.master, b)
  {
    assert RowOk(s, b);
    var paths := s.store.rows[b].paths;
    forall i | 0 <= i < |paths|
      ensures paths[i].value in s.store.objects && IsChunkOf(s, b, i, s.store.objects[paths[i].value])
    {
      assert ChunkOk(s, b, i);
    }
  }

  // The factory dependencies of a batch: each bytecode as often as it was deployed up to the end of the batch.
  ghost predicate AreDepsOf(bytecodes: seq<Bytecode>, c: Chain, b: Batch)
    requires c.Sealed(b)
  {
    forall bytecode ::
      multiset(bytecodes)[bytecode] == |Deployments(c.deps, c.lastBlocks[b], bytecode)|
  }

  // The snapshot of a batch can be read back: its chunks together are the storage after the batch, told by the tables
  // of the chain alone, and its factory dependencies are those deployed by then.
  ghost predicate IsExact(s: State, b: Batch)
    requires b in s.store.rows
  {
    var row, objects := s.store.rows[b], s.store.objects;
    && s.master.Sealed(b)
    && Readable(objects, row.paths)
    && IsStorageAfter(Assembled(objects, row.paths, |row.paths|), s.master, b)
    && row.depsPath in objects && objects[row.depsPath].Deps?
    && AreDepsOf(objects[row.depsPath].bytecodes, s.master, b)
  }

  lemma DepsOfBatch(c: Chain, b: Batch)
    requires c.Sealed(b)
    ensures AreDepsOf(DepsAt(c, b), c, b)
  {
    forall bytecode
      ensures multiset(DepsAt(c, b))[bytecode] == |Deployments(c.deps, c.lastBlocks[b], bytecode)|
    {
      DepsAreThoseDeployed(c.deps, c.lastBlocks[b], bytecode);
    }
  }

  lemma CompleteRowIsExact(s: State, b: Batch)
    requires Inv(s) && b in s.store.rows && s.store.rows[b].IsComplete()
    ensures IsExact(s, b)
  {
    assert RowOk(s, b);
    CompleteRowHoldsContent(s, b);
    AssembledIsState(s.store.objects, s.store.rows[b].paths, s.master, b);
    QueryFindsStorage(s.master, b);
    DepsOfBatch(s.master, b);
  }

  /** Once a snapshot's metadata is complete, the objects that its paths lead to are together exactly the storage at the
      end of the batch: every key first written by then, with the value of its last write, and nothing else. Its factory
      dependencies are those deployed by then. */
  lemma CompleteSnapshotIsExact(trace: seq<State>, k: nat, b: Batch)
    requires Behavior(trace) && k < |trace|
    requires b in trace[k].store.rows && trace[k].store.rows[b].IsComplete()
    ensures IsExact(trace[k], b)
  {
    ReachableStatesSatisfyInv(trace, k);
    CompleteRowIsExact(trace[k], b);
  }

  /** In a complete snapshot each key of the state is in exactly one chunk, and no chunk holds another key. */
  lemma EachLogInExactlyOneChunk(trace: seq<State>, k: nat, b: Batch, key: Key, i: nat)
    requires Behavior(trace) && k < |trace|
    requires b in trace[k].store.rows && trace[k].store.rows[b].IsComplete()
    requires i < |trace[k].store.rows[b].paths|
    ensures var s := trace[k];
            var paths := s.store.rows[b].paths;
            && s.master.Sealed(b) && |paths| <= U64_MAX && Readable(s.store.objects, paths)
            && (key in s.store.objects[paths[i].value].logs <==>
                  key in StateAt(s.master, b) && i == ChunkOf(key, |paths|))
  {
    ReachableStatesSatisfyInv(trace, k);
    CompleteRowHoldsContent(trace[k], b);
    ChunksPartitionKeys(key, i, |trace[k].store.rows[b].paths|);
  }

  // ---------- What a step may change ----------

  ghost predicate Evolves(s: Store, t: Store) {
    forall b :: b in s.rows ==> RowEvolves(s, t, b)
  }

  // A row keeps its version, its chunk count and its recorded paths; a complete snapshot is left alone.
  ghost predicate RowEvolves(s: Store, t: Store, b: Batch)
    requires b in s.rows
  {
    && b in t.rows
    && t.rows[b].version == s.rows[b].version
    && t.rows[b].depsPath == s.rows[b].depsPath
    && |t.rows[b].paths| == |s.rows[b].paths|
    && (forall i :: 0 <= i < |s.rows[b].paths| && s.rows[b].paths[i].Some? ==>
          t.rows[b].paths[i] == s.rows[b].paths[i])
    && |Missing(t.rows[b].paths)| <= |Missing(s.rows[b].paths)|
    && (s.rows[b].IsComplete() ==> Untouched(s, t, b))
  }

  // The row and everything that it leads to are the same.
  ghost predicate Untouched(s: Store, t: Store, b: Batch)
    requires b in s.rows && b in t.rows
  {
    && t.rows[b] == s.rows[b]
    && SameObject(s, t, s.rows[b].depsPath)
    && forall i :: 0 <= i < |s.rows[b].paths| && s.rows[b].paths[i].Some? ==>
         SameObject(s, t, s.rows[b].paths[i].value)
  }

  predicate SameObject(s: Store, t: Store, name: string) {
    name in s.objects ==> name in t.objects && t.objects[name] == s.objects[name]
  }

  lemma EvolvesReflexive(s: Store)
    ensures Evolves(s, s)
  {
  }

  lemma EvolvesTransitive(s: Store, t: Store, u: Store)
    requires Evolves(s, t) && Evolves(t, u)
    ensures Evolves(s, u)
  {
    forall b | b in s.rows ensures RowEvolves(s, u, b) {
      assert RowEvolves(s, t, b) && RowEvolves(t, u, b);
    }
  }

  // Writing an object leaves all rows alone, if it changes nothing that a complete snapshot leads to.
  lemma PutEvolves(store: Store, name: string, blob: Blob)
    requires forall b :: b in store.rows && store.rows[b].IsComplete() ==>
               && (name == store.rows[b].depsPath ==> SameObject(store, Put(store, name, blob), name))
               && (Some(name) in store.rows[b].paths ==> SameObject(store, Put(store, name, blob), name))
    ensures Evolves(store, Put(store, name, blob))
  {
    var t := Put(store, name, blob);
    forall b | b in store.rows ensures RowEvolves(store, t, b) {
      if store.rows[b].IsComplete() {
        forall i | 0 <= i < |store.rows[b].paths| ensures SameObject(store, t, store.rows[b].paths[i].value) {
          assert store.rows[b].paths[i] in store.rows[b].paths;
        }
      }
    }
  }

  // A task that stores an object or records a path works on a chunk that has no path yet.
  lemma WriterHasNoPath(s: State, a: Action)
    requires Inv(s) && Enabled(s, a) && (a.StoreChunk? || a.Record?)
    ensures var b := s.run.progress.batch;
            && b in s.store.rows && a.id < |s.store.rows[b].paths|
            && s.store.rows[b].paths[a.id].None? && !s.store.rows[b].IsComplete()
            && (a.Record? ==> s.run.work.tasks[a.id].path == ChunkPath(b, a.id))
  {
    var p := s.run.progress;
    assert TaskOk(s, p.batch, p.chunkCount, a.id, s.run.work.tasks[a.id]);
  }

  // A chunk that is written where it belongs is already there, if a complete snapshot leads to it.
  lemma PutChunkEvolves(s: State, b: Batch, id: nat, blob: Blob)
    requires StoreOk(s) && IsChunkOf(s, b, id, blob)
    ensures Evolves(s.store, Put(s.store, ChunkPath(b, id), blob))
  {
    var name, t := ChunkPath(b, id), Put(s.store, ChunkPath(b, id), blob);
    forall c | c in s.store.rows && s.store.rows[c].IsComplete()
      ensures name != s.store.rows[c].depsPath
      ensures SameObject(s.store, t, name)
    {
      assert RowOk(s, c);
      DepsPathsAreUnique(c, b, id);
      assert ChunkOk(s, b, id);
    }
    PutEvolves(s.store, name, blob);
  }

  lemma PutDepsEvolves(s: State, b: Batch)
    requires StoreOk(s) && s.master.Sealed(b)
    ensures Evolves(s.store, Put(s.store, DepsPath(b), Deps(DepsAt(s.master, b))))
  {
    var name, blob := DepsPath(b), Deps(DepsAt(s.master, b));
    forall c | c in s.store.rows && s.store.rows[c].IsComplete()
      ensures name == s.store.rows[c].depsPath ==> SameObject(s.store, Put(s.store, name, blob), name)
      ensures Some(name) !in s.store.rows[c].paths
    {
      assert RowOk(s, c);
      DepsPathsAreUnique(b, c, 0);
      forall i | 0 <= i < |s.store.rows[c].paths| ensures s.store.rows[c].paths[i] != Some(name) {
        DepsPathsAreUnique(b, c, i);
      }
    }
    PutEvolves(s.store, name, blob);
  }

  lemma RecordEvolves(store: Store, b: Batch, i: nat, path: string)
    requires b in store.rows && i < |store.rows[b].paths| && store.rows[b].paths[i].None?
    ensures Evolves(store, store.(rows := store.rows[b := RecordPath(store.rows[b], i, path)]))
  {
    RecordShrinksWorkList(store.rows[b], i, path);
  }

  lemma WriteEvolves(s: State, a: Action)
    requires Inv(s) && Enabled(s, a) && (a.StoreChunk? || a.Record?)
    ensures Evolves(s.store, Next(s, a).store)
  {
    WriterHasNoPath(s, a);
    var p := s.run.progress;
    if a.StoreChunk? {
      assert TaskOk(s, p.batch, p.chunkCount, a.id, s.run.work.tasks[a.id]);
      PutChunkEvolves(s, p.batch, a.id, Chunk(p.version, s.run.work.tasks[a.id].logs));
    } else {
      RecordEvolves(s.store, p.batch, a.id, s.run.work.tasks[a.id].path);
    }
  }

  lemma LandEvolves(s: State, a: Action)
    requires Inv(s) && a.Land? && Enabled(s, a)
    ensures Evolves(s.store, Next(s, a).store)
  {
    var u := a.upload;
    assert UploadOk(s, u);
    if u.ChunkUpload? {
      PutChunkEvolves(s, u.batch, u.id, u.blob);
    } else {
      PutDepsEvolves(s, u.batch);
    }
  }

  lemma StoreDepsEvolves(s: State, a: Action)
    requires Inv(s) && a.StoreDeps? && Enabled(s, a)
    ensures Evolves(s.store, Next(s, a).store)
  {
    ContentStable(s.replica, s.master, s.run.progress.batch);
    PutDepsEvolves(s, s.run.progress.batch);
  }

  lemma AddRowEvolves(s: State, a: Action)
    requires RunOk(s) && a.AddRow? && Enabled(s, a)
    ensures Evolves(s.store, Next(s, a).store)
  {
    NewRowEvolves(s.store, s.run.progress.batch, Next(s, a).store.rows[s.run.progress.batch]);
  }

  lemma NewRowEvolves(store: Store, b: Batch, row: Row)
    requires b !in store.rows
    ensures Evolves(store, store.(rows := store.rows[b := row]))
  {
  }

  lemma StoreIsLeftAlone(s: State, a: Action)
    requires Enabled(s, a)
    requires !(a.StoreChunk? || a.Record? || a.StoreDeps? || a.AddRow? || a.Land?)
    ensures Next(s, a).store == s.store
  {
  }

  lemma StepEvolves(s: State, a: Action)
    requires Inv(s) && Enabled(s, a)
    ensures Evolves(s.store, Next(s, a).store)
  {
    if a.StoreChunk? || a.Record? {
      WriteEvolves(s, a);
    } else if a.StoreDeps? {
      StoreDepsEvolves(s, a);
    } else if a.AddRow? {
      AddRowEvolves(s, a);
    } else if a.Land? {
      LandEvolves(s, a);
    } else {
      StoreIsLeftAlone(s, a);
      EvolvesReflexive(s.store);
    }
  }

  lemma EvolvesOnce(trace: seq<State>, k: nat)
    requires Behavior(trace) && k + 1 < |trace|
    ensures Evolves(trace[k].store, trace[k + 1].store)
  {
    ReachableStatesSatisfyInv(trace, k);
    var a := StepOfBehavior(trace, k);
    StepEvolves(trace[k], a);
  }

  /** Over any stretch of any behaviour, the chunk count and version of a snapshot stay what its first row
      fixed, recorded paths stay, the number of unrecorded chunks never grows and a complete snapshot is
      never touched. */
  lemma {:induction false} SnapshotsOnlyMoveForward(trace: seq<State>, j: nat, k: nat)
    requires Behavior(trace) && j <= k < |trace|
    ensures Evolves(trace[j].store, trace[k].store)
    decreases k
  {
    if j < k {
      SnapshotsOnlyMoveForward(trace, j, k - 1);
      EvolvesOnce(trace, k - 1);
      EvolvesTransitive(trace[j].store, trace[k - 1].store, trace[k].store);
    }
  }

  /** A complete snapshot stays readable for ever: at any later point of the behaviour, whatever was run and
      however the chain grew, its row is the same and its objects still assemble to the state at the end of the
      batch. */
  lemma CompleteSnapshotStaysExact(trace: seq<State>, j: nat, k: nat, b: Batch)
    requires Behavior(trace) && j <= k < |trace|
    requires b in trace[j].store.rows && trace[j].store.rows[b].IsComplete()
    ensures b in trace[k].store.rows && trace[k].store.rows[b] == trace[j].store.rows[b]
    ensures IsExact(trace[j], b) && IsExact(trace[k], b)
  {
    SnapshotsOnlyMoveForward(trace, j, k);
    assert RowEvolves(trace[j].store, trace[k].store, b);
    CompleteSnapshotIsExact(trace, j, b);
    CompleteSnapshotIsExact(trace, k, b);
  }
}
