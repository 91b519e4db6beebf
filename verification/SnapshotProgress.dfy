/**
 Snapshot metadata and the decision what a run of the creator works on
 (core/bin/snapshots_creator/src/creator.rs:23-61 and 235-342).
 */
module SnapshotProgress {
  import opened Wrappers
  import opened HashedKeyChunks
  import opened StorageChain

  datatype Version = Version0 | Version1

  // A row of the `snapshots` table; a path is `None` until its chunk is recorded.
  datatype Row = Row(version: Version, depsPath: string, paths: seq<Option<string>>) {
    predicate IsComplete() {
      forall i :: 0 <= i < |paths| ==> paths[i].Some?
    }
  }

  datatype Config = Config(version: nat, batch: Option<Batch>, chunkSize: u64, queries: nat)

  datatype Progress = Progress(version: Version, batch: Batch, isNew: bool, chunkCount: u64, remaining: seq<nat>)

  function NewProgress(version: Version, batch: Batch, chunkCount: u64): Progress {
    Progress(version, batch, true, chunkCount, seq(chunkCount, i requires 0 <= i => i))
  }

  // Ids of the chunks without a path, from position `from` on.
  function MissingFrom(paths: seq<Option<string>>, from: nat): seq<nat>
    decreases |paths| - from
  {
    if from >= |paths| then []
    else if paths[from].None? then [from] + MissingFrom(paths, from + 1)
    else MissingFrom(paths, from + 1)
  }

  function Missing(paths: seq<Option<string>>): seq<nat> {
    MissingFrom(paths, 0)
  }

  function FromExistingSnapshot(batch: Batch, row: Row): Progress
    requires |row.paths| <= U64_MAX
  {
    Progress(row.version, batch, false, |row.paths|, Missing(row.paths))
  }

  ghost predicate Ascending(ids: seq<nat>) {
    forall j, k :: 0 <= j < k < |ids| ==> ids[j] < ids[k]
  }

  lemma {:induction false} MissingFromHas(paths: seq<Option<string>>, from: nat, i: nat)
    ensures i in MissingFrom(paths, from) <==> from <= i < |paths| && paths[i].None?
    decreases |paths| - from
  {
    if from < |paths| {
      MissingFromHas(paths, from + 1, i);
    }
  }

  lemma {:induction false} MissingFromAscends(paths: seq<Option<string>>, from: nat)
    ensures Ascending(MissingFrom(paths, from))
    decreases |paths| - from
  {
    if from < |paths| {
      MissingFromAscends(paths, from + 1);
      var rest := MissingFrom(paths, from + 1);
      forall k | 0 <= k < |rest| ensures from < rest[k] {
        MissingFromHas(paths, from + 1, rest[k]);
      }
    }
  }

  /** The work list of a resumed snapshot is exactly the ascending list of ids without a path; it is empty
      exactly for a complete snapshot, and for a row without any path it is the work list of a new snapshot. */
  lemma WorkListIsExact(paths: seq<Option<string>>)
    ensures Ascending(Missing(paths))
    ensures forall i :: i in Missing(paths) <==> 0 <= i < |paths| && paths[i].None?
    ensures Missing(paths) == [] <==> forall i :: 0 <= i < |paths| ==> paths[i].Some?
    ensures (forall i :: 0 <= i < |paths| ==> paths[i].None?) ==>
              Missing(paths) == seq(|paths|, i requires 0 <= i => i)
  {
    MissingFromAscends(paths, 0);
    forall i: nat ensures i in Missing(paths) <==> 0 <= i < |paths| && paths[i].None? {
      MissingFromHas(paths, 0, i);
    }
    if i :| 0 <= i < |paths| && paths[i].None? {
      assert i in Missing(paths);
    }
    if Missing(paths) != [] {
      assert Missing(paths)[0] in Missing(paths);
    }
    if forall i :: 0 <= i < |paths| ==> paths[i].None? {
      AllMissing(paths, 0);
    }
  }

  lemma {:induction false} AllMissing(paths: seq<Option<string>>, from: nat)
    requires from <= |paths|
    requires forall i :: 0 <= i < |paths| ==> paths[i].None?
    ensures MissingFrom(paths, from) == seq(|paths| - from, i requires 0 <= i => from + i)
    decreases |paths| - from
  {
    if from < |paths| {
      AllMissing(paths, from + 1);
      RangeUnfolds(from, |paths| - from);
    }
  }

  lemma RangeUnfolds(from: nat, n: nat)
    requires n > 0
    ensures seq(n, i requires 0 <= i => from + i) == [from] + seq(n - 1, i requires 0 <= i => from + 1 + i)
  {
  }

  // What a run does after looking at the sealed batches and at the existing row.
  datatype Decision = Failed | Nothing | Resume(progress: Progress) | Create(batch: Batch)

  // The batch asked for, or the last but one sealed batch; `None` is an error.
  function RequestedBatch(config: Config, sealedBatches: nat): Option<Batch> {
    if sealedBatches == 0 then None
    else
      var last := sealedBatches - 1;
      match config.batch
      case Some(b) => if b <= last then Some(b) else None
      case None => if last != 0 then Some(last - 1) else None
  }

  function LoadOrInitialize(config: Config, sealedBatches: nat, rows: map<Batch, Row>): Decision
    requires forall b :: b in rows ==> |rows[b].paths| <= U64_MAX
  {
    match RequestedBatch(config, sealedBatches)
    case None => Failed
    case Some(b) =>
      if b !in rows then Create(b)
      else if rows[b].IsComplete() then Nothing
      else if config.batch.Some? then Resume(FromExistingSnapshot(b, rows[b]))
      else Nothing
  }

  // The only batches that a configuration may ask for.
  ghost predicate AsksFor(config: Config, sealedBatches: nat, b: Batch) {
    match config.batch
    case Some(named) => b == named && b < sealedBatches
    case None => b + 2 == sealedBatches
  }

  /** A run fails exactly if there is no batch to take: a named batch must be sealed, and without a name it is the last
      but one, so that one sealed batch follows it. It creates a snapshot exactly if the batch has no row, and resumes
      one exactly if the row is incomplete and the batch was named. */
  lemma DecisionIsRight(config: Config, sealedBatches: nat, rows: map<Batch, Row>, b: Batch)
    requires forall c :: c in rows ==> |rows[c].paths| <= U64_MAX
    ensures var decision := LoadOrInitialize(config, sealedBatches, rows);
            && (decision.Failed? <==> !exists c :: AsksFor(config, sealedBatches, c))
            && (AsksFor(config, sealedBatches, b) ==>
                  && RequestedBatch(config, sealedBatches) == Some(b)
                  && (b !in rows ==> decision == Create(b))
                  && (b in rows ==>
                        if config.batch.Some? && exists i :: 0 <= i < |rows[b].paths| && rows[b].paths[i].None?
                        then decision.Resume? && decision.progress.batch == b && !decision.progress.isNew
                        else decision == Nothing))
  {
    var requested := RequestedBatch(config, sealedBatches);
    if requested.Some? {
      assert AsksFor(config, sealedBatches, requested.value);
    }
  }

  // The number of a version in the configuration.
  function VersionNumber(version: Version): nat {
    match version
    case Version0 => 0
    case Version1 => 1
  }

  /** Exactly the numbers of the two versions are accepted, each for its own version. */
  lemma VersionIsRead(number: nat, version: Version)
    ensures VersionOf(number) == Some(version) <==> VersionNumber(version) == number
    ensures VersionOf(number).None? <==> number > 1
  {
  }

  function VersionOf(version: nat): Option<Version> {
    if version == 0 then Some(Version0) else if version == 1 then Some(Version1) else None
  }

  // Division rounding up.
  function DivCeil(a: u64, b: u64): (r: u64)
    requires 0 < b
    ensures a <= r * b < a + b
  {
    var q := a / b;
    assert a == b * q + a % b;
    assert q <= a by { if a < q { MulMono(q, 1, b); } }
    if a % b == 0 then q
    else
      assert q < a by { if a <= q { MulMono(q, 1, b); } }
      q + 1
  }

  // `None` is the panic of dividing by a zero chunk size.
  function ChunkCount(keys: u64, chunkSize: u64, minChunks: u64): Option<u64> {
    if chunkSize == 0 then None
    else
      var count := DivCeil(keys, chunkSize);
      Some(if count < minChunks then minChunks else count)
  }

  /** The chunks of the configured size have room for all keys, above the minimum not one is too many, and there is at
      least one as soon as there is a key, whatever the minimum. */
  lemma ChunksHoldAllKeys(keys: u64, chunkSize: u64, minChunks: u64)
    requires chunkSize > 0
    ensures var count := ChunkCount(keys, chunkSize, minChunks).value;
            && count >= minChunks && count * chunkSize >= keys
            && (keys > 0 ==> count > 0)
            && (count > minChunks ==> (count - 1) * chunkSize < keys)
  {
    var quotient, count := DivCeil(keys, chunkSize), ChunkCount(keys, chunkSize, minChunks).value;
    MulMono(chunkSize, quotient, count);
    assert (quotient - 1) * chunkSize == quotient * chunkSize - chunkSize;
  }

  // `add_storage_logs_filepath_for_snapshot`
  function RecordPath(row: Row, i: nat, path: string): Row
    requires i < |row.paths|
  {
    row.(paths := row.paths[i := Some(path)])
  }

  /** Recording the path of a missing chunk removes exactly that chunk from the work list. */
  lemma RecordShrinksWorkList(row: Row, i: nat, path: string)
    requires i < |row.paths| && row.paths[i].None?
    ensures |Missing(RecordPath(row, i, path).paths)| == |Missing(row.paths)| - 1
  {
    RecordShrinksFrom(row.paths, i, path, 0);
  }

  lemma {:induction false} RecordShrinksFrom(paths: seq<Option<string>>, i: nat, path: string, from: nat)
    requires i < |paths| && paths[i].None?
    ensures |MissingFrom(paths[i := Some(path)], from)| == |MissingFrom(paths, from)| - if from <= i then 1 else 0
    decreases |paths| - from
  {
    if from < |paths| {
      RecordShrinksFrom(paths, i, path, from + 1);
    }
  }
}
