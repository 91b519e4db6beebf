# Verified models of the hard parts of the node

This project models the parts of the repository whose correctness depends on interleavings, on whole histories or on
unbounded data, and proves what they are for.

* **Snapshot creator** (`HashedKeyChunks`, `StorageChain`, `ObjectKeys`, `SnapshotProgress`, `SnapshotProtocol`,
  `SnapshotSafety`, `SnapshotLiveness`, `SnapshotCreator`). A state machine of the chain, its lagging replica, Postgres,
  the object store, in which objects are found by name, and the chunk tasks of one run. A step is the code between two
  awaits. Between any two steps the chain may grow, the replica may catch up, uploads of ended runs may still land and
  the process may stop for good; a later run may have any configuration.
* **Transaction generator** (`RpcLimiter`, `TransactionTasks`, `TransactionLinks`, `TransactionRuns`,
  `TransactionOutcomes`, `TransactionGenerator`). The limiter of concurrent RPC calls and the lock made of chained promises, with calls that
  settle in any order and may throw.
* **Configuration compiler** (`ConfigMerge`, `ConfigNesting`, `ConfigLoader`, `ConfigImports`, `ConfigTrees`,
  `ConfigLoading`, `ConfigLeaves`, `ConfigWays`, `ConfigVariables`). The recursive import of files and folders, the deep
  merge along the import tree, and the flattening into environment variables.
* **Upgrade verification** (`UpgradeHistory`, `UpgradeChecks`). The fold of upgrade directories into the states of three
  environments, and the checks on the result.
* **Blobs and prover statistics** (`Eip4844Blobs`, `ProverStats`). Splitting pubdata into EIP-4844 blobs
  (`FIELD_ELEMENTS_PER_BLOB` in the "Parameters" section of EIP-4844 is 4096; 31 of the 32 bytes of an element are
  used), and the aggregation of job counts.
* **TEE prover loop** (`TeeProverLoop`) and **intrinsic costs** (`IntrinsicCosts`).

A program that updates fields in place is a class whose methods are proved against the step functions of its state
machine, or a method with a loop that is proved against a specification; everything else is functions and lemmas.
What the functions compute is stated without them: the storage after a batch by the tables of the chain, the tree of a
configuration by the files on disk, variables by the ways through a configuration, the outcome of a transaction by its
calls, recorded bytecodes by the upgrade files, and waits by the failures in a row.

## Where the code falls short of what one would expect

Each of these is a lemma with a concrete input or an exact condition; the model follows the code.

* A postponed RPC call that throws never settles the promise of its waiter. The generator always finishes, whatever
  throws, if and only if no iteration has more than ten transactions (`AlwaysFinishesIff`); the program creates 50 to 150
  (`ProgramCanHang`).
* A failed funding rejects all later ones without trying them (`FailurePoisonsLaterLinks`, `LockEndsAtFirstFailure`,
  `SecondFundingIsNeverTried`).
* Nested deep merges are not associative (`MergeIsAssociativeIff`), so that a setting of an earlier import can show
  through a later one (`NestedMergeIsFlatIff`, `NestedMergeIsNotAlwaysFlat`).
* The bootloader of an upgrade that does not mention it gets the bytecode of the default account
  (`BootloaderCarriesDefaultAccount`, `BootloaderGoesWrong`), and whether it counts as changed is decided by that bytecode
  too (`BootloaderChangeIsRightIff`); an upgrade without `stage2` makes `stage2` lose its
  contracts (`StageIsRightIff`, `StageGoesWrong`).
* The TEE prover documents the initial backoff for the first retry; the code multiplies before it sleeps
  (`FollowsDocumentationIff`, `DefaultBackoff`). With a multiplier below one the maximum can be forgotten
  (`BackoffIsPowerIff`).

## Model

| member | source | states |
|---|---|---|
| `HashedKeyChunks.ChunkClosedForm` | core/lib/types/src/snapshots.rs:316-329 | chunks are consecutive multiples of one stride, the last one cut at the end of the 256-bit space; no product or sum overflows, for every 64-bit chunk count |
| `HashedKeyChunks.ChunksPartitionKeys` | core/lib/types/src/snapshots.rs:298-330 | each key lies in exactly one chunk: chunks do not intersect and jointly cover the key space |
| `HashedKeyChunks.ChunksAreContiguous` | core/lib/types/src/snapshots.rs:346-359 | the first chunk starts at zero, the last ends at the last key, and neighbours touch, for every chunk count |
| `HashedKeyChunks.ChunkSizesAreUniform` | core/lib/types/src/snapshots.rs:361-371 | all chunks but the last have equal size, and the last is smaller by less than the number of chunks |
| `StorageChain.LatestIsLastWrite` | core/lib/dal/src/snapshots_creator_dal.rs:64-81 | the maximum of block and operation number picks the last write to a key up to a block, if there is any |
| `StorageChain.QueryFindsStorage` | core/lib/dal/src/snapshots_creator_dal.rs:44-108 | the query for all keys finds exactly the storage after the batch, told by the tables alone: a key is in it if and only if its initial write is in the batch or before and a write up to its last block exists, with the value of the last such write and the batch and index of the initial one |
| `StorageChain.QueryStable` | core/lib/dal/src/snapshots_creator_dal.rs:44-108 | the chunk query and the factory dependencies of a sealed batch give the same answer however far the chain has grown |
| `StorageChain.QueryIsRestriction` | core/lib/dal/src/snapshots_creator_dal.rs:44-51 | a chunk query is the storage after the batch, as `QueryFindsStorage` tells it, restricted to the range |
| `StorageChain.DepsAreThoseDeployed` | core/lib/dal/src/snapshots_creator_dal.rs:179-200 | the factory dependencies hold each bytecode as often as it was deployed up to the last block of the batch |
| `StorageChain.InsertKeepsNumbering` | core/lib/dal/src/storage_logs_dedup_dal.rs:81-117 | inserting the initial writes of batch after batch keeps their indices distinct, starting at one and growing with the batch |
| `StorageChain.InsertAddsKeys` | core/lib/dal/src/storage_logs_dedup_dal.rs:81-117 | the inserted keys get the batch and consecutive indices in their order, and no other key changes |
| `StorageChain.LastInitialWriteIsMaximal` | core/lib/dal/src/snapshots_creator_dal.rs:15-42 | the row that the query for the number of keys selects is the one with the largest index up to the batch |
| `StorageChain.LastIndexCountsKeys` | core/lib/dal/src/snapshots_creator_dal.rs:15-42 | the index of the last initial write up to a batch, which the query takes for the number of keys, is at least one and at least the size of the state after the batch |
| `ObjectKeys.ChunkPathsAreUnique` | core/lib/object_store/src/objects.rs:97-103 | chunk objects share a path only if batch and chunk number are equal, although the number is padded and unbounded |
| `ObjectKeys.DepsPathsAreUnique` | core/lib/object_store/src/objects.rs:67-69 | factory dependencies never share a path with a chunk or with another batch |
| `ObjectKeys.ZeroPadShape` | core/lib/object_store/src/objects.rs:100 | a chunk number is padded with zeros to four digits, and not cut if it is longer |
| `ObjectKeys.ChunkPathExample` | core/lib/object_store/src/objects.rs:222-237 | the names of chunk 97 and of the factory dependencies of batch 42, written out |
| `SnapshotProgress.WorkListIsExact` | core/bin/snapshots_creator/src/creator.rs:45-60 | the work list is exactly the ascending list of ids without a path, empty exactly for a complete snapshot, and that of a new snapshot if no path is recorded |
| `SnapshotProgress.DivCeil` | core/bin/snapshots_creator/src/creator.rs:263-265 | the chunk count is the least that fits all keys into chunks of the configured size |
| `SnapshotProgress.ChunksHoldAllKeys` | core/bin/snapshots_creator/src/creator.rs:261-265 | chunks of the configured size have room for all keys, above the minimum one less would not do, and there is one as soon as there is a key, whatever the minimum |
| `SnapshotProgress.DecisionIsRight` | core/bin/snapshots_creator/src/creator.rs:294-341 | a run fails exactly if the named batch is not sealed or, without a name, there is no last but one batch; it creates a snapshot of the batch exactly if there is no row, resumes exactly an incomplete one that was named, and else does nothing |
| `SnapshotProgress.RecordShrinksWorkList` | core/lib/dal/src/snapshots_dal.rs:82-108 | recording a missing path takes exactly one chunk off the work list |
| `SnapshotProtocol.StepKeepsInv` | core/bin/snapshots_creator/src/creator.rs:80-414 | every step of the chain, the replica, a run, a task, a late upload or a crash keeps the invariant on rows, named objects and tasks |
| `SnapshotProtocol.PutChunkKeepsStoreOk` | core/bin/snapshots_creator/src/creator.rs:171-184 | writing a chunk under its name overwrites no other object, because names are unique |
| `SnapshotProtocol.LandKeepsInv` | core/bin/snapshots_creator/src/creator.rs:414 | an upload that lands after its run was cancelled writes what has to be there |
| `SnapshotProtocol.StoppedUploadMayLand` | core/bin/snapshots_creator/src/creator.rs:414 | the upload of a task whose run is stopped may land at any later time under the name of its chunk |
| `SnapshotProtocol.ReachableStatesSatisfyInv` | core/bin/snapshots_creator/src/creator.rs:344-414 | the invariant holds in every state of every sequence of runs |
| `SnapshotSafety.RecordedPathsAreSound` | core/bin/snapshots_creator/src/creator.rs:96-148 | the object found under a recorded path has the row's version and exactly the logs of its range in the row's own chunking; an object with the name of a chunk exists only for a batch with a row |
| `SnapshotSafety.CompleteSnapshotIsExact` | core/bin/snapshots_creator/src/creator.rs:378-414 | the objects that the paths of a complete snapshot lead to are together exactly the storage after the batch, told by initial writes and logs alone, and its factory dependencies hold each bytecode as often as it was deployed by then |
| `SnapshotSafety.EachLogInExactlyOneChunk` | core/bin/snapshots_creator/src/creator.rs:87-139 | in a complete snapshot a key is in a chunk exactly if it is in the state and the chunk is its own |
| `SnapshotSafety.StepEvolves` | core/bin/snapshots_creator/src/creator.rs:294-341 | one step keeps version, chunk count and recorded paths of every row, adds no missing chunk, and leaves complete snapshots alone |
| `SnapshotSafety.SnapshotsOnlyMoveForward` | core/bin/snapshots_creator/src/creator.rs:315-341 | the same over any stretch of any sequence of runs, whatever their configurations |
| `SnapshotSafety.CompleteSnapshotStaysExact` | core/bin/snapshots_creator/src/creator.rs:315-319 | a complete snapshot keeps its row and assembles to the state after its batch at every later time |
| `SnapshotLiveness.ReachableResources` | core/bin/snapshots_creator/src/main.rs:91-100 | permits, replica connections, the master connection and the gauge are accounted for in every reachable state |
| `SnapshotLiveness.ResourceBounds` | core/bin/snapshots_creator/src/creator.rs:90-145 | tasks in progress and replica connections never exceed the limit, the master connection is held at most once, and no task holds both kinds |
| `SnapshotLiveness.TasksMoveUntilFinished` | core/bin/snapshots_creator/src/creator.rs:90-158 | in every reachable state some task can do a step exactly as long as some task is unfinished |
| `SnapshotLiveness.RunCanGoOnIff` | core/bin/snapshots_creator/src/creator.rs:236-414 | a run is stuck exactly if it lacks replica connections, a valid version, a chunk size, or data that has not reached the replica yet; with launched tasks it never is |
| `SnapshotLiveness.TaskStepCountsDown` | core/bin/snapshots_creator/src/creator.rs:80-158 | every task step takes exactly one off the number of steps left |
| `SnapshotLiveness.FinishedRunIsComplete` | core/bin/snapshots_creator/src/creator.rs:402-414 | when all tasks of a run are finished, its snapshot is complete |
| `SnapshotLiveness.UninterruptedRunCompletes` | core/bin/snapshots_creator/src/creator.rs:398-414 | while a run is not interrupted, however the chains grow, task steps done and steps left add up to the same number, and the tasks halt exactly when none is left, with the snapshot complete |
| `SnapshotLiveness.LaunchedRunTakesSevenSteps` | core/bin/snapshots_creator/src/creator.rs:398-414 | from the launch on, such a run does exactly seven task steps per missing chunk: with fewer some task can go on, and with all the snapshot is complete |
| `SnapshotLiveness.ResumeLaunchesMissingChunks` | core/bin/snapshots_creator/src/creator.rs:309-331 | a run that names the batch of an incomplete snapshot resumes it with the version and chunk count of the row and exactly the missing chunks; a run that names none never does |
| `SnapshotLiveness.NewRunLaunchesAllChunks` | core/bin/snapshots_creator/src/creator.rs:332-413 | a run for a sealed batch with tree data and no snapshot can always go ahead: five steps lead to a row, stored factory dependencies and one task per chunk, with at least one chunk, room for the whole state and, above the minimum, no chunk too many |
| `SnapshotLiveness.ReportedProgressIsExact` | core/bin/snapshots_creator/src/creator.rs:152-156 | the progress a finishing task reports is the number of recorded chunks, because the single master connection orders the tasks |
| `SnapshotCreation.SnapshotCreator.constructor` | core/bin/snapshots_creator/src/creator.rs:398-413 | the tasks, permits and gauge of a run start as the state machine says |
| `SnapshotCreation.SnapshotCreator.Advance` | core/bin/snapshots_creator/src/creator.rs:90-157 | one step of a task changes store, permits, connections and gauge in place exactly as the state machine does |
| `SnapshotCreation.SnapshotCreator.Poll` | core/bin/snapshots_creator/src/creator.rs:414 | with an unfinished task some task makes a step, which is a step of the state machine |
| `SnapshotCreation.SnapshotCreator.ProcessChunks` | core/bin/snapshots_creator/src/creator.rs:398-414 | under every schedule and every growth of chain and replica the tasks end after exactly the steps that were left, seven per missing chunk from the launch on, with the snapshot complete and all resources returned |
| `RpcLimiter.SubmitKeepsLimiter` | infrastructure/via/src/transactions.ts:25-36 | a submitted call starts at once exactly if none waits and a slot is free |
| `RpcLimiter.ReleaseKeepsLimiter` | infrastructure/via/src/transactions.ts:37-45 | the `finally` block hands the slot to the oldest waiting call, which is never postponed again |
| `TransactionTasks.StepKeepsInv` | infrastructure/via/src/transactions.ts:21-100 | every step keeps the limiter consistent, and every call, task and link of the lock awaited by exactly whom it belongs to |
| `TransactionTasks.ReachableStatesSatisfyInv` | infrastructure/via/src/transactions.ts:21-103 | so does every run, with any number of iterations and with calls that throw |
| `TransactionTasks.LimiterIsFair` | infrastructure/via/src/transactions.ts:21-47 | the counter equals the calls that hold a slot and is at most ten, waiting calls mean that all slots are taken, and calls start in submission order |
| `TransactionTasks.CallsNeverRestart` | infrastructure/via/src/transactions.ts:25-47 | a call starts at most once and never returns to an earlier phase |
| `TransactionTasks.FundingIsSerial` | infrastructure/via/src/transactions.ts:49-91 | completed fund, sign and send sequences are a prefix of the chaining order, with at most one in progress right after it, whatever fails |
| `TransactionTasks.OneFundingCall` | infrastructure/via/src/transactions.ts:71-89 | at most one funding call waits or runs at a time |
| `TransactionTasks.StepDecreasesWork` | infrastructure/via/src/transactions.ts:51-103 | every step decreases a measure over queued and running calls, chained links, tasks and iterations |
| `TransactionTasks.RunsAreBounded` | infrastructure/via/src/transactions.ts:51-103 | every run has at most fourteen steps per transaction and one per iteration |
| `TransactionTasks.EveryMaximalRunFinishes` | infrastructure/via/src/transactions.ts:25-103 | where a run cannot go on, every call has run, and all iterations are done if and only if no postponed call threw |
| `TransactionTasks.LostCallNeverFinishes` | infrastructure/via/src/transactions.ts:27-32 | once a postponed call has thrown, the program never finishes |
| `TransactionRuns.SmallRunsNeverPostpone` | infrastructure/via/src/transactions.ts:21-47 | if every iteration has at most ten transactions, no call is ever postponed: each busy slot has its own unfinished transaction |
| `TransactionRuns.LargeIterationCanHang` | infrastructure/via/src/transactions.ts:51-103 | for every plan with a larger iteration there is a run that stops without finishing |
| `TransactionRuns.AlwaysFinishesIff` | infrastructure/via/src/transactions.ts:51-103 | all runs finish, whatever throws, if and only if no iteration has more than ten transactions |
| `TransactionRuns.ProgramCanHang` | infrastructure/via/src/transactions.ts:51-52 | two iterations of 50 to 150 transactions do not always finish |
| `TransactionLinks.ReachableLinkCalls` | infrastructure/via/src/transactions.ts:71-89 | a link submits a call only after all links before it were fulfilled, and is rejected only if its call failed or the link before it is rejected |
| `TransactionLinks.FailurePoisonsLaterLinks` | infrastructure/via/src/transactions.ts:71-91 | a rejected link stays rejected, and at no later time is a link after it fulfilled or has it submitted a call |
| `TransactionLinks.LockEndsAtFirstFailure` | infrastructure/via/src/transactions.ts:71-91 | where a run cannot go on and no call was lost, exactly the links before the first failed funding are fulfilled, and those after it were never tried |
| `TransactionLinks.SecondFundingIsNeverTried` | infrastructure/via/src/transactions.ts:71-91 | a run with two transactions in which that happens |
| `TransactionOutcomes.ReachableHistory` | infrastructure/via/src/transactions.ts:51-100 | in every reachable state nobody has submitted two calls, no task is chained twice, and every link and every finished task has the calls that explain it |
| `TransactionOutcomes.TasksFollowTheirCalls` | infrastructure/via/src/transactions.ts:56-94 | every task has submitted exactly one call that creates its transaction, is chained at most once and only if that call succeeded, and is given up without being chained only if it threw |
| `TransactionOutcomes.LinksEndAsCalled` | infrastructure/via/src/transactions.ts:60-91 | where a run cannot go on, whatever threw or was lost, a transaction is chained if and only if its creation succeeded, and a link is fulfilled if and only if its funding did |
| `TransactionOutcomes.TransactionsAreConserved` | infrastructure/via/src/transactions.ts:51-97 | transactions under way and to come are always as many as the iterations asked for |
| `TransactionGeneration.TransactionGenerator.RunRpcCall` | infrastructure/via/src/transactions.ts:25-36 | the counter and queue are updated in place as the limiter's submission says |
| `TransactionGeneration.TransactionGenerator.Finally` | infrastructure/via/src/transactions.ts:37-45 | the `finally` block does one release step and keeps the invariant |
| `TransactionGeneration.TransactionGenerator.ContinueTask` | infrastructure/via/src/transactions.ts:60-94 | a task whose creation settled does the step of the state machine, by which exactly the created transactions are chained (`LinksEndAsCalled`), and keeps the invariant |
| `TransactionGeneration.TransactionGenerator.RunLink` | infrastructure/via/src/transactions.ts:71-72 | a link begins when the one before it is fulfilled, and keeps the invariant |
| `TransactionGeneration.TransactionGenerator.Perform` | infrastructure/via/src/transactions.ts:21-100 | the code between two awaits does exactly the step of the state machine |
| `TransactionGeneration.TransactionGenerator.Generate` | infrastructure/via/src/transactions.ts:14-106 | under any scheduler and any throws the program stops within fourteen steps per transaction and one per iteration, with every call run; it is done exactly if no postponed call threw, and always if no iteration exceeds the slots; exactly the created transactions are chained, exactly the links whose funding succeeded are fulfilled, and none is forgotten |
| `TransactionGeneration.EveryRunHasScheduler` | infrastructure/via/src/transactions.ts:51-103 | every run that cannot go on is the run under some scheduler, because no state comes twice |
| `ConfigMerge.CoveredIffHidden` | infrastructure/via/src/config.ts:47-51 | a later table hides an earlier one exactly if it has all its keys, through all shared tables |
| `ConfigMerge.MergeIsAssociativeIff` | infrastructure/via/src/config.ts:47-62 | two ways of nesting a merge of three values agree if and only if no plain value stands between two tables of which the later leaves out a key |
| `ConfigMerge.MergeIsNotAssociative` | infrastructure/via/src/config.ts:47-62 | three tables for which they differ |
| `ConfigMerge.MergeAllAppend` | infrastructure/via/src/config.ts:47-62 | merging two lists in a row is merging their results, if the second agrees on which keys are tables |
| `ConfigMerge.LastSettingWins` | infrastructure/via/src/config.ts:47-48 | in a merge of values that agree, each setting is that of the last value that sets it |
| `ConfigNesting.MergeAt` | infrastructure/via/src/config.ts:47-51 | a merge has the setting of the later value if that one speaks about it, and else of the earlier one, for all values |
| `ConfigNesting.MergeStops` | infrastructure/via/src/config.ts:47-51 | how far a merge follows a path, and how it stops there, is told from how far its two parts do |
| `ConfigNesting.FlatMergeDecides` | infrastructure/via/src/config.ts:47-62 | in a flat merge the last value that speaks about a setting decides it, whether values agree or not |
| `ConfigNesting.NestedDecidesIff` | infrastructure/via/src/config.ts:35-63 | along an import tree the last file that speaks about a setting decides it, if and only if no setting shows through an import whose files together lack the path although one alone does not, as told from where each file stops on the path |
| `ConfigNesting.SilentImportTurnsBack` | infrastructure/via/src/config.ts:35-63 | such an import contains a file with a plain value on the way to the setting, and a later file that turns it back into a table |
| `ConfigNesting.NestedIsFlat` | infrastructure/via/src/config.ts:35-63 | if the files of each import after the first agree on which keys are tables, the nested merge is the flat one |
| `ConfigImports.LoadSucceedsIff` | infrastructure/via/src/config.ts:10-63 | loading succeeds if and only if every import chain from the root consists of readable files and visits none twice, so that diamonds are accepted |
| `ConfigImports.ReportedFailureIsReal` | infrastructure/via/src/config.ts:10-33 | a reported path ends an import chain from the root and is missing, or cannot be read, or comes twice in the chain, or is a folder in place of a file, as the failure says |
| `ConfigImports.CycleReportedIff` | infrastructure/via/src/config.ts:11-14 | if all reachable files are readable, a cycle is reported exactly when some import chain revisits a file, and nothing else is |
| `ConfigImports.NestedMergeIsFlat` | infrastructure/via/src/config.ts:35-63 | if the files of each import after the first agree on which keys are tables, the loaded value is one flat merge of all files in depth-first post-order; the last file that speaks about a setting decides it, and the last that sets it if all files agree |
| `ConfigImports.NestedMergeIsFlatIff` | infrastructure/via/src/config.ts:35-63 | for every load and every setting the nested and the flat merge agree, if and only if no setting shows through |
| `ConfigImports.SteadyLoadIsFlat` | infrastructure/via/src/config.ts:35-63 | they agree if no import after the first turns a plain value on the way to the setting back into a table |
| `ConfigImports.NestedMergeIsNotAlwaysFlat` | infrastructure/via/src/config.ts:35-63 | four files for which they differ |
| `ConfigTrees.ListingIsExact` | infrastructure/via/src/config.ts:57-60 | a folder loads exactly its files that end in `.env` or `.toml`, each once and in the order of the names |
| `ConfigTrees.ImportsFileIff` | infrastructure/via/src/config.ts:35-44 | a readable file imports another if and only if it lists its path or that of a folder that holds it |
| `ConfigTrees.LoadedTreeIsOnDisk` | infrastructure/via/src/config.ts:10-63 | the loaded tree is the one tree that lies on disk below the root: for every import in order nothing, a file or the files of a folder, and then the content of the file without its import list; the value is the merge of this tree |
| `ConfigTrees.FilesAreInOrder` | infrastructure/via/src/config.ts:46-62 | the files of a tree are listed in depth-first post-order |
| `ConfigLoading.LoaderRun.LoadConfigFile` | infrastructure/via/src/config.ts:10-53 | the loader with its shared stack computes the recursive definition, restores the stack on every return, and returns the tree that lies on disk below the path |
| `ConfigLoading.LoaderRun.LoadConfigFolder` | infrastructure/via/src/config.ts:55-63 | the same for folders: the tree of exactly the `.env` and `.toml` files on disk, in order |
| `ConfigVariables.CollectVariables` | infrastructure/via/src/config.ts:65-99 | the loops compute the last-wins map over the leaves: a variable for every way through the configuration to a plain value and no other, named after its steps, and without a lower-case letter if the prefix has none |
| `ConfigLeaves.NothingLostIff` | infrastructure/via/src/config.ts:65-99 | no leaf is lost if and only if the joined names are distinct |
| `ConfigLeaves.LastLeafIsKept` | infrastructure/via/src/config.ts:65-99 | a variable has the value of the last leaf of its name |
| `ConfigLeaves.LaterKeysOverride` | infrastructure/via/src/config.ts:68-95 | where properties of a table come to the same name, those enumerated later override the earlier ones |
| `ConfigLeaves.SettingIsLeaf` | infrastructure/via/src/config.ts:86-95 | every plain setting is a leaf under the joined name of its path |
| `ConfigLeaves.EnumerationExists` | infrastructure/via/src/config.ts:68 | there is an order in which the keys of every object can be enumerated |
| `ConfigLeaves.Upper` | infrastructure/via/src/config.ts:69 | letters from a to z move down by 32, all others stay, and no lower-case letter is left |
| `ConfigWays.LeavesAreEndsOfWays` | infrastructure/via/src/config.ts:65-99 | the leaves are exactly the ends of the ways through the configuration, by keys of tables, indices of arrays of objects and indices of elements that are arrays or strings, under the names of the steps joined by underscores |
| `ConfigWays.JoinIsListed` | infrastructure/via/src/config.ts:81-84 | a plain array is the texts of its elements from first to last with commas between them |
| `ConfigWays.LeavesGiveVariables` | infrastructure/via/src/config.ts:65-99 | every variable is the end of a way, and every way has a variable of its name |
| `ConfigCompilation.VariableComesFromLastFile` | infrastructure/via/src/config.ts:113-121 | a variable has the value that the last file to speak about its setting gives it, if no other setting shows through and no other leaf takes its name |
| `UpgradeHistory.AddContractsMeaning` | infrastructure/zk/src/verify-upgrade.ts:144-171 | after an upgrade file a contract has the bytecode of its last entry in the list or the one it had, and counts as changed exactly if it is listed |
| `UpgradeHistory.BytecodesCarryForward` | infrastructure/zk/src/verify-upgrade.ts:128-181 | the recorded bytecodes of default account and contracts are those of the latest upgrade that has the environment and mentions them, across skipped environments |
| `UpgradeHistory.StageForgets` | infrastructure/zk/src/verify-upgrade.ts:210-212 | after an upgrade without `stage2` only later upgrades count |
| `UpgradeHistory.StageIsRightIff` | infrastructure/zk/src/verify-upgrade.ts:210-212 | after an absence, what is recorded for `stage2` about a contract is what the latest upgrade says, if and only if a later upgrade lists it or no earlier one did; the default account is always right |
| `UpgradeHistory.StageGoesWrong` | infrastructure/zk/src/verify-upgrade.ts:202-212 | three upgrades that are accepted and after which `stage2` has lost a contract |
| `UpgradeHistory.EnvironmentLoadsIff` | infrastructure/zk/src/verify-upgrade.ts:98-171 | an environment loads if and only if all its files are valid and the first one mentions default account and bootloader |
| `UpgradeHistory.BootloaderCarriesDefaultAccount` | infrastructure/zk/src/verify-upgrade.ts:139-141 | the recorded bootloader is the mentioned one or else the earlier default account, and is the latest bootloader exactly if it is mentioned or both coincide |
| `UpgradeHistory.BootloaderIsRightIff` | infrastructure/zk/src/verify-upgrade.ts:139-141 | one load treats the bootloader like the default account exactly if there is no earlier state or its two bytecodes are equal |
| `UpgradeHistory.BootloaderGoesWrong` | infrastructure/zk/src/verify-upgrade.ts:139-141 | two upgrades after which the recorded bootloader is the default account's bytecode |
| `UpgradeHistory.ChangesAreRecorded` | infrastructure/zk/src/verify-upgrade.ts:98-126 | default account and bootloader count as changed exactly if the upgrade mentions them with a bytecode other than the latest earlier one of the default account, which is recorded as the previous bytecode of both; else they have none |
| `UpgradeHistory.BootloaderChangeIsRightIff` | infrastructure/zk/src/verify-upgrade.ts:118-141 | whether a mentioned bootloader counts as changed is right, if and only if the latest earlier bytecodes of bootloader and default account are equal or the new one is neither |
| `UpgradeHistory.PreviousBytecodes` | infrastructure/zk/src/verify-upgrade.ts:146-171 | the previous bytecode of a listed contract is that of its entry before the last one in the list, or else the latest one before the upgrade; a contract that is not listed has none |
| `UpgradeHistory.LoadChainStateHistory` | infrastructure/zk/src/verify-upgrade.ts:183-227 | the loop accepts exactly the valid histories with versions 12, 13 and so on, and records every upgrade under its version |
| `UpgradeHistory.AcceptedHistoryCarriesForward` | infrastructure/zk/src/verify-upgrade.ts:183-227 | in every accepted history version 12 + k holds, per environment, the latest bytecodes up to upgrade k |
| `UpgradeChecks.CheckBytecodeConsistency` | infrastructure/zk/src/verify-upgrade.ts:274-298 | the check passes if and only if both environments have the same contracts with the same bytecodes |
| `UpgradeChecks.CheckVersion` | infrastructure/zk/src/verify-upgrade.ts:300-323 | the check of a version passes exactly if any two present environments have the same bytecodes and `stage2` is not missing where another one is present |
| `UpgradeChecks.CheckForceDeployments` | infrastructure/zk/src/verify-upgrade.ts:326-361 | filling and emptying the map succeeds if and only if plain deployments with distinct bytecodes correspond one-to-one to the changed contracts, at their addresses |
| `UpgradeChecks.DeploymentsAreTheListedContracts` | infrastructure/zk/src/verify-upgrade.ts:326-361 | for a loaded state the check passes if and only if plain deployments with distinct bytecodes deploy exactly the contracts listed in the file, with the listed bytecodes |
| `Eip4844Blobs.Decode` | core/lib/basic_types/src/basic_fri_types.rs:69-95 | decoding fails exactly above sixteen blob sizes, with the number of blobs needed, and otherwise cuts the zero-padded payload into full blobs from the first slot on |
| `Eip4844Blobs.DecodedIsWellFormed` | core/lib/basic_types/src/basic_fri_types.rs:33-41 | the result is always a gapless run of full blobs |
| `Eip4844Blobs.EncodeAfterDecode` | core/lib/basic_types/src/basic_fri_types.rs:65-95 | encoding a decoded payload gives the payload followed by zeros, as few as fill the last blob |
| `Eip4844Blobs.DecodeAfterEncode` | core/lib/basic_types/src/basic_fri_types.rs:65-95 | decoding encoded blobs gives them back if and only if they are a gapless run of full blobs |
| `ProverStats.CircuitProverStats.constructor` | core/lib/basic_types/src/basic_fri_types.rs:266-297 | the loops fill in exactly the default keys, all with zero counts |
| `ProverStats.DefaultKeysCount` | core/lib/basic_types/src/basic_fri_types.rs:266-297 | there are 35 default keys: circuits 1 to 15 and 255 of round 0, circuits 3 to 18 of round 1, and one of each later round (`DefaultKeysUnion`) |
| `ProverStats.CircuitProverStats.Add` | core/lib/basic_types/src/basic_fri_types.rs:251-264 | both counts of one key grow, and nothing else changes |
| `ProverStats.FromEntries` | core/lib/basic_types/src/basic_fri_types.rs:212-225 | one object of its own per version seen, holding the aggregated counts |
| `ProverStats.AggregateIsSum` | core/lib/basic_types/src/basic_fri_types.rs:212-264 | a version is present exactly if an entry has it, with the default keys and those of its entries, and each count is the sum over the matching entries |
| `ProverStats.JobsAreConserved` | core/lib/basic_types/src/basic_fri_types.rs:212-264 | all counts together are the jobs of all entries: none lost, none counted twice |
| `ProverStats.OrderDoesNotMatter` | core/lib/basic_types/src/basic_fri_types.rs:212-225 | the statistics do not depend on the order of the entries |
| `ProverStats.StatisticsMatchTable` | core/lib/basic_types/src/basic_fri_types.rs:309-353 | for all rows, collecting fails exactly on an unknown status or version, and else counts every row once, under circuit 2 in round 2 |
| `ProverStats.RoundTwoCollapsesIff` | core/lib/basic_types/src/basic_fri_types.rs:335-347 | in the statistics of any rows the only circuit of round 2 is circuit 2, if and only if no row of another round looks like round 2 after the cast while its circuit does not look like 2 |
| `ProverStats.StatisticsAreExact` | core/lib/basic_types/src/basic_fri_types.rs:309-353 | for rows within the range of the casts and fewer than 2^64 jobs the counts are those of the table |
| `TeeProverLoop.Run` | core/bin/zksync_tee_prover/src/tee_prover.rs:167-218 | over every stream of outcomes the loop gives up exactly at the first failure that cannot be retried or is number `max_retries + 1` in a row; until then it waits once after every outcome but a proof, in order: the initial backoff without a job, and the backoff of k after failure number k in a row, whatever the rounding |
| `TeeProverLoop.WaitIsPower` | core/bin/zksync_tee_prover/src/tee_prover.rs:206-214 | in a run, under the condition of `BackoffIsPowerIff`, the wait after failure number k in a row is min(initial * multiplier^k, max) |
| `TeeProverLoop.MultipliedIsPower` | core/bin/zksync_tee_prover/src/tee_prover.rs:207 | multiplying k times by the multiplier is multiplying by its k-th power |
| `TeeProverLoop.SuccessForgets` | core/bin/zksync_tee_prover/src/tee_prover.rs:185-187 | what happens after a success depends only on the outcomes after it |
| `TeeProverLoop.BackoffIsPowerIff` | core/bin/zksync_tee_prover/src/tee_prover.rs:206-209 | the backoff after k failures is min(initial * multiplier^k, max) for all k, if and only if the multiplier is at least one, the maximum does not cut off the first step, or it is zero |
| `TeeProverLoop.FollowsDocumentationIff` | core/bin/zksync_tee_prover/src/tee_prover.rs:143-145 | retry k waits min(initial * multiplier^(k-1), max), as documented, for all k, if and only if initial or max is zero, the multiplier is one, or it is larger and initial is at least max |
| `TeeProverLoop.BackoffIsNotAlwaysGeometric` | core/bin/zksync_tee_prover/src/tee_prover.rs:206-209 | a configuration for which it is not |
| `TeeProverLoop.DefaultBackoff` | core/bin/zksync_tee_prover/src/tee_prover.rs:150-159 | with the default configuration a run that only fails waits 2, 4, 8, 16 and 32 seconds and gives up at failure number six, so that it does not follow its documentation |
| `TeeProverLoop.DefaultBackoffIsCapped` | core/bin/zksync_tee_prover/src/tee_prover.rs:150-159 | by default no backoff exceeds 128 seconds, and from seven failures on it would be just that |
| `IntrinsicCosts.DerivedChargeCovers` | core/bin/system-constants-generator/src/intrinsic_costs.rs:170-211 | empty-block cost, user payments and the derived charge per transaction cover blocks of every size whose later transactions cost no more than the second, in gas and pubdata |
| `IntrinsicCosts.DerivedChargeIsLeast` | core/bin/system-constants-generator/src/intrinsic_costs.rs:201-210 | if later transactions cost what the second does, a charge covers blocks of every size if and only if it is at least the derived one |
| `IntrinsicCosts.DerivationSucceedsIff` | core/bin/system-constants-generator/src/intrinsic_costs.rs:153-199 | the derivation goes through if and only if the measurements grow and second and third transaction leave the same unpaid, as far as they leave any |

## Left out

- SnapshotProtocol.StepKeepsInv: the narrowing of batch numbers and chunk counts to 32 bits in the SQL parameters is not modelled.
- SnapshotProtocol.ReachableStatesSatisfyInv: runs never overlap and rows are never deleted by hand, as the creator assumes; a missing replica connection makes a step wait, and the time-out that ends the wait is a crash.
- ObjectKeys.ChunkPathsAreUnique: the storage prefix is the bucket name of one store; other stores prepend a directory.
- StorageChain.QueryStable: the two versions of a chunk differ only in how keys are written, so both are one query; rows of the tables arrive as `Extends` and `Numbered` say.
- ConfigVariables.CollectVariables: upper-casing is that of ASCII letters, TOML dates are not modelled, and the map has no order, so the order of the output lines is not stated.
- ConfigLoading.LoaderRun.LoadConfigFile: parsing is part of the files, an import list with an entry that is not a string counts as unreadable, and symbolic links are not modelled.
- TransactionTasks.StepKeepsInv: what Node.js does on an unhandled rejection is not modelled.
- ProverStats.CircuitProverStats.Add: additions wrap at 64 bits as in a release build, where a debug build panics.
- TeeProverLoop.Run: metrics, the signing of proofs and the overflow panic of scaling a duration are not modelled.
- IntrinsicCosts.DerivedChargeCovers: measurements are unbounded numbers instead of 32-bit ones; the virtual machine that measures them is a parameter.
- Calldata comparison, ABI decoding and table output of the upgrade verification.
- Protobuf and gzip formats of snapshot objects, and recovery from a snapshot.
- Enums and their names, node builders, command lines and logging, which would only add easy members.
