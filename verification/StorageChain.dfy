/**
 The append-only tables that a snapshot is read from, and the query that reads one chunk of it
 (core/lib/dal/src/snapshots_creator_dal.rs). The tables keep growing while a snapshot is made;
 what is proved here is that the answer for a sealed batch never changes.
 */
module StorageChain {
  import opened Wrappers
  import opened HashedKeyChunks


  type Batch = nat
  type Block = nat
  type Key = u256
  type Value = nat
  type Bytecode = nat

  // One write of the `storage_logs` table, `op` being its number within the block.
  datatype StorageLog = StorageLog(block: Block, op: nat, key: Key, value: Value) {
    predicate After(other: StorageLog) {
      block > other.block || (block == other.block && op > other.op)
    }
  }

  // A row of `initial_writes`: the batch that first wrote the key, and its enumeration index.
  datatype InitialWrite = InitialWrite(batch: Batch, index: u64) {
    predicate After(other: InitialWrite) {
      batch > other.batch || (batch == other.batch && index > other.index)
    }
  }

  type InitialWrites = map<Key, InitialWrite>

  datatype FactoryDep = FactoryDep(block: Block, bytecode: Bytecode)

  // `lastBlocks[b]` is the last L2 block of the sealed batch `b`.
  datatype Chain = Chain(
    logs: seq<StorageLog>,
    initialWrites: InitialWrites,
    deps: seq<FactoryDep>,
    lastBlocks: seq<Block>,
    treeData: set<Batch>)
  {
    predicate Sealed(b: Batch) {
      b < |lastBlocks|
    }
  }

  // A storage log as it is written into a snapshot.
  datatype SnapshotLog = SnapshotLog(value: Value, initialBatch: Batch, index: u64)

  // `MAX(ARRAY[miniblock_number, operation_number])` over the writes to `key` up to `block`.
  function Latest(logs: seq<StorageLog>, key: Key, block: Block): Option<StorageLog> {
    if logs == [] then None
    else
      var log := logs[|logs| - 1];
      var before := Latest(logs[..|logs| - 1], key, block);
      if log.key == key && log.block <= block && (before.None? || !before.value.After(log)) then Some(log)
      else before
  }

  /** `Latest` finds the last write exactly when the key was written at all. */
  lemma {:induction false} LatestIsLastWrite(logs: seq<StorageLog>, key: Key, block: Block)
    ensures var r := Latest(logs, key, block);
            match r
            case None => forall log :: log in logs ==> !(log.key == key && log.block <= block)
            case Some(last) =>
              && last in logs && last.key == key && last.block <= block
              && forall log :: log in logs && log.key == key && log.block <= block ==> !log.After(last)
  {
    if logs != [] {
      var init := logs[..|logs| - 1];
      LatestIsLastWrite(init, key, block);
      assert logs == init + [logs[|logs| - 1]];
    }
  }

  // The SQL query behind both versions of a chunk: last values up to `block` of the keys in `range`
  // that were first written no later than in `batch`.
  function QueryChunk(c: Chain, block: Block, batch: Batch, range: KeyRange): map<Key, SnapshotLog> {
    map key | key in c.initialWrites && range.Contains(key) && c.initialWrites[key].batch <= batch
              && Latest(c.logs, key, block).Some?
      :: SnapshotLog(Latest(c.logs, key, block).value.value, c.initialWrites[key].batch, c.initialWrites[key].index)
  }

  const ALL_KEYS: KeyRange := KeyRange(0, U256_MAX)

  // The state that a snapshot of `b` has to capture: storage at the end of the batch.
  function StateAt(c: Chain, b: Batch): map<Key, SnapshotLog>
    requires c.Sealed(b)
  {
    QueryChunk(c, c.lastBlocks[b], b, ALL_KEYS)
  }

  function Restrict(state: map<Key, SnapshotLog>, range: KeyRange): map<Key, SnapshotLog> {
    map key | key in state && range.Contains(key) :: state[key]
  }

  // Bytecodes deployed up to `block`.
  function DepsUpTo(deps: seq<FactoryDep>, block: Block): seq<Bytecode> {
    if deps == [] then []
    else
      var before := DepsUpTo(deps[..|deps| - 1], block);
      var dep := deps[|deps| - 1];
      if dep.block <= block then before + [dep.bytecode] else before
  }

  function DepsAt(c: Chain, b: Batch): seq<Bytecode>
    requires c.Sealed(b)
  {
    DepsUpTo(c.deps, c.lastBlocks[b])
  }

  // ---------- What the queries have to find ----------

  // A write to a key up to the end of a batch, and the last one of them.
  predicate IsWrite(c: Chain, b: Batch, key: Key, log: StorageLog)
    requires c.Sealed(b)
  {
    log in c.logs && log.key == key && log.block <= c.lastBlocks[b]
  }

  ghost predicate IsLastWrite(c: Chain, b: Batch, key: Key, log: StorageLog)
    requires c.Sealed(b)
  {
    && IsWrite(c, b, key, log)
    && forall other :: IsWrite(c, b, key, other) ==>
         other.block < log.block || (other.block == log.block && other.op <= log.op)
  }

  ghost predicate WasWritten(c: Chain, b: Batch, key: Key)
    requires c.Sealed(b)
  {
    exists log :: IsWrite(c, b, key, log)
  }

  // The entry of a key that was first written in the batch or before.
  ghost predicate IsEntryOf(entry: SnapshotLog, c: Chain, b: Batch, key: Key)
    requires c.Sealed(b) && key in c.initialWrites
  {
    && entry.initialBatch == c.initialWrites[key].batch
    && entry.index == c.initialWrites[key].index
    && exists log :: IsLastWrite(c, b, key, log) && log.value == entry.value
  }

  // A table of keys is the storage after a batch: the keys written and first written by then, each with its last value.
  ghost predicate IsStorageAfter(state: map<Key, SnapshotLog>, c: Chain, b: Batch)
    requires c.Sealed(b)
  {
    && (forall key :: key in state <==>
          key in c.initialWrites && c.initialWrites[key].batch <= b && WasWritten(c, b, key))
    && (forall key :: key in state ==> IsEntryOf(state[key], c, b, key))
  }

  lemma {:induction false} LatestIsFound(c: Chain, b: Batch, key: Key)
    requires c.Sealed(b)
    ensures var last := Latest(c.logs, key, c.lastBlocks[b]);
            && (last.Some? <==> WasWritten(c, b, key))
            && (last.Some? ==> IsLastWrite(c, b, key, last.value))
  {
    LatestIsLastWrite(c.logs, key, c.lastBlocks[b]);
    var last := Latest(c.logs, key, c.lastBlocks[b]);
    if last.Some? {
      assert IsWrite(c, b, key, last.value);
    }
  }

  /** The query finds exactly the storage after a batch, told by the tables alone. */
  lemma QueryFindsStorage(c: Chain, b: Batch)
    requires c.Sealed(b)
    ensures IsStorageAfter(StateAt(c, b), c, b)
  {
    var state := StateAt(c, b);
    forall key: Key
      ensures key in state <==>
              key in c.initialWrites && c.initialWrites[key].batch <= b && WasWritten(c, b, key)
      ensures key in state ==> IsEntryOf(state[key], c, b, key)
    {
      LatestIsFound(c, b, key);
    }
  }

  // The positions of a bytecode in the table of factory dependencies, up to a block.
  function Deployments(deps: seq<FactoryDep>, block: Block, bytecode: Bytecode): set<nat> {
    set i | 0 <= i < |deps| && deps[i].block <= block && deps[i].bytecode == bytecode
  }

  /** The query for factory dependencies returns each bytecode as often as it was deployed up to the block. */
  lemma {:induction false} DepsAreThoseDeployed(deps: seq<FactoryDep>, block: Block, bytecode: Bytecode)
    ensures multiset(DepsUpTo(deps, block))[bytecode] == |Deployments(deps, block, bytecode)|
  {
    if deps != [] {
      var init, last := deps[..|deps| - 1], |deps| - 1;
      DepsAreThoseDeployed(init, block, bytecode);
      var more := if deps[last].block <= block && deps[last].bytecode == bytecode then {last} else {};
      assert Deployments(deps, block, bytecode) == Deployments(init, block, bytecode) + more;
      assert deps[last].block <= block ==>
          DepsUpTo(deps, block) == DepsUpTo(init, block) + [deps[last].bytecode];
    }
  }

  // ---------- Enumeration indices ----------

  // Indices start at one, are distinct and grow with the batch.
  ghost predicate Numbered(writes: InitialWrites) {
    && (forall key :: key in writes ==> 1 <= writes[key].index)
    && (forall k, l :: k in writes && l in writes && k != l ==> writes[k].index != writes[l].index)
    && (forall k, l :: k in writes && l in writes && writes[k].batch < writes[l].batch ==>
          writes[k].index < writes[l].index)
  }

  // `max_enumeration_index`, zero for an empty table.
  ghost predicate IsLastIndex(writes: InitialWrites, last: u64) {
    && (forall key :: key in writes ==> writes[key].index <= last)
    && (last > 0 ==> exists key :: key in writes && writes[key].index == last)
  }

  // `insert_initial_writes`: the keys get the indices after the last one.
  function InsertInitialWrites(writes: InitialWrites, batch: Batch, keys: seq<Key>, last: u64): InitialWrites
    requires last + |keys| <= U64_MAX
    decreases |keys|
  {
    if keys == [] then writes
    else InsertInitialWrites(writes[keys[0] := InitialWrite(batch, last + 1)], batch, keys[1..], last + 1)
  }

  /** Sealing batch after batch keeps the enumeration indices of initial writes in order. */
  lemma {:induction false} InsertKeepsNumbering(writes: InitialWrites, batch: Batch, keys: seq<Key>, last: u64)
    requires Numbered(writes) && IsLastIndex(writes, last) && last + |keys| <= U64_MAX
    requires forall key :: key in writes ==> writes[key].batch <= batch
    requires forall i :: 0 <= i < |keys| ==> keys[i] !in writes
    requires forall i, j :: 0 <= i < j < |keys| ==> keys[i] != keys[j]
    ensures var all := InsertInitialWrites(writes, batch, keys, last);
            Numbered(all) && IsLastIndex(all, last + |keys|)
    decreases |keys|
  {
    if keys != [] {
      var more := writes[keys[0] := InitialWrite(batch, last + 1)];
      assert more[keys[0]].index == last + 1;
      InsertKeepsNumbering(more, batch, keys[1..], last + 1);
    }
  }

  /** The inserted keys get the batch and consecutive indices, in their order, and no other key changes. */
  lemma {:induction false} InsertAddsKeys(writes: InitialWrites, batch: Batch, keys: seq<Key>, last: u64, i: nat)
    requires last + |keys| <= U64_MAX && i < |keys|
    requires forall i, j :: 0 <= i < j < |keys| ==> keys[i] != keys[j]
    ensures var all := InsertInitialWrites(writes, batch, keys, last);
            && keys[i] in all && all[keys[i]] == InitialWrite(batch, last + 1 + i)
            && (forall key :: key !in keys ==> (key in all <==> key in writes))
            && (forall key :: key !in keys && key in writes ==> all[key] == writes[key])
    decreases |keys|
  {
    var more := writes[keys[0] := InitialWrite(batch, last + 1)];
    if |keys| > 1 {
      InsertAddsKeys(more, batch, keys[1..], last + 1, if i > 0 then i - 1 else 0);
      assert forall key :: key in keys <==> key == keys[0] || key in keys[1..];
    }
  }

  // The row that `get_distinct_storage_logs_keys_count` selects: the last one up to a batch.
  ghost predicate IsLastInitialWrite(writes: InitialWrites, batch: Batch, key: Key) {
    && key in writes && writes[key].batch <= batch
    && forall other :: other in writes && writes[other].batch <= batch ==> !writes[other].After(writes[key])
  }

  /** The row that comes last by batch and index is the one with the largest index up to the batch. */
  lemma LastInitialWriteIsMaximal(writes: InitialWrites, batch: Batch, key: Key)
    requires Numbered(writes)
    ensures IsLastInitialWrite(writes, batch, key) <==>
            && key in writes && writes[key].batch <= batch
            && forall other :: other in writes && writes[other].batch <= batch ==>
                 writes[other].index <= writes[key].index
  {
  }

  lemma {:induction false} IndicesBoundCount(writes: InitialWrites, keys: set<Key>, n: nat)
    requires Numbered(writes)
    requires forall key :: key in keys ==> key in writes && writes[key].index <= n
    ensures |keys| <= n
  {
    if key :| key in keys && writes[key].index == n {
      IndicesBoundCount(writes, keys - {key}, n - 1);
    } else if n > 0 {
      IndicesBoundCount(writes, keys, n - 1);
    } else {
      assert keys == {};
    }
  }

  /** The index of the last initial write up to a batch is at least one, and at least the number of keys in the state
      after the batch. */
  lemma LastIndexCountsKeys(c: Chain, b: Batch, last: Key)
    requires c.Sealed(b) && Numbered(c.initialWrites) && IsLastInitialWrite(c.initialWrites, b, last)
    ensures 1 <= c.initialWrites[last].index
    ensures |StateAt(c, b)| <= c.initialWrites[last].index
  {
    IndicesBoundCount(c.initialWrites, StateAt(c, b).Keys, c.initialWrites[last].index);
  }

  // ---------- Growth ----------

  // Growth of the tables: new writes belong to blocks after every sealed batch, and a key that had no
  // initial write gets one only in a batch that was not sealed yet.
  ghost predicate Extends(c: Chain, d: Chain) {
    && c.logs <= d.logs
    && (forall i, b :: |c.logs| <= i < |d.logs| && 0 <= b < |c.lastBlocks| ==> d.logs[i].block > c.lastBlocks[b])
    && c.deps <= d.deps
    && (forall i, b :: |c.deps| <= i < |d.deps| && 0 <= b < |c.lastBlocks| ==> d.deps[i].block > c.lastBlocks[b])
    && c.lastBlocks <= d.lastBlocks
    && c.treeData <= d.treeData
    && (forall key :: key in c.initialWrites ==> key in d.initialWrites && d.initialWrites[key] == c.initialWrites[key])
    && (forall key :: key in d.initialWrites && key !in c.initialWrites ==>
          d.initialWrites[key].batch >= |c.lastBlocks|)
  }

  // What the replica has seen so far is numbered like the master.
  lemma PartIsNumbered(c: Chain, d: Chain)
    requires Extends(c, d) && Numbered(d.initialWrites)
    ensures Numbered(c.initialWrites)
  {
  }

  lemma ExtendsTransitive(c: Chain, d: Chain, e: Chain)
    requires Extends(c, d) && Extends(d, e)
    ensures Extends(c, e)
  {
    assert c.lastBlocks == d.lastBlocks[..|c.lastBlocks|];
    assert c.logs == d.logs[..|c.logs|] && d.logs == e.logs[..|d.logs|];
    assert c.deps == d.deps[..|c.deps|] && d.deps == e.deps[..|d.deps|];
  }

  lemma {:induction false} LatestStable(logs: seq<StorageLog>, more: seq<StorageLog>, key: Key, block: Block)
    requires logs <= more
    requires forall i :: |logs| <= i < |more| ==> more[i].block > block
    ensures Latest(more, key, block) == Latest(logs, key, block)
    decreases |more|
  {
    if |logs| == |more| {
      assert logs == more;
    } else {
      LatestStable(logs, more[..|more| - 1], key, block);
    }
  }

  lemma {:induction false} DepsStable(deps: seq<FactoryDep>, more: seq<FactoryDep>, block: Block)
    requires deps <= more
    requires forall i :: |deps| <= i < |more| ==> more[i].block > block
    ensures DepsUpTo(more, block) == DepsUpTo(deps, block)
    decreases |more|
  {
    if |deps| == |more| {
      assert deps == more;
    } else {
      DepsStable(deps, more[..|more| - 1], block);
    }
  }

  /** The query for a sealed batch gives the same answer whenever it runs, however far the chain has grown. */
  lemma QueryStable(c: Chain, d: Chain, b: Batch, range: KeyRange)
    requires Extends(c, d) && c.Sealed(b)
    ensures d.Sealed(b) && d.lastBlocks[b] == c.lastBlocks[b]
    ensures QueryChunk(d, c.lastBlocks[b], b, range) == QueryChunk(c, c.lastBlocks[b], b, range)
    ensures DepsAt(d, b) == DepsAt(c, b)
  {
    assert c.lastBlocks == d.lastBlocks[..|c.lastBlocks|];
    var block := c.lastBlocks[b];
    var q, r := QueryChunk(c, block, b, range), QueryChunk(d, block, b, range);
    forall key: Key
      ensures key in q <==> key in r
      ensures key in q ==> q[key] == r[key]
    {
      LatestStable(c.logs, d.logs, key, block);
    }
    DepsStable(c.deps, d.deps, block);
  }

  /** A chunk query reads the restriction of the batch's state to the chunk's range. */
  lemma QueryIsRestriction(c: Chain, b: Batch, range: KeyRange)
    requires c.Sealed(b)
    ensures QueryChunk(c, c.lastBlocks[b], b, range) == Restrict(StateAt(c, b), range)
  {
  }
}
