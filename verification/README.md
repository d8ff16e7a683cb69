# Verified models of ART components

This project models, in Dafny, the parts of the Android Runtime repository whose correctness rests on
state that has to be undone, committed or kept consistent over whole runs, and proves what those parts
promise. `dafny verify dfyconfig.toml` checks everything.

| file | models |
|---|---|
| `heap.dfy`, `interns.dfy`, `relocation.dfy`, `transaction.dfy` | the undo log of a class-initialisation transaction, the string intern tables, and what a moving collector does to a log |
| `rollback.dfy`, `runs.dfy`, `restoration.dfy`, `commits.dfy` | whole runs of nested transactions: what rolling back restores, with commits and collections in between |
| `linker.dfy`, `class_init.dfy`, `init_effects.dfy`, `initializer.dfy`, `caught_failure.dfy` | the class linker's transaction stack and class initialisation in transactions, nested, failing and catching |
| `files.dfy`, `artifacts.dfy` | all-or-nothing replacement of files, and the sets of compilation artifacts committed with it |
| `cancellation.dfy`, `pre_reboot.dfy` | artd's cancellation signal and its run-once Pre-reboot preparation |
| `cfg.dfy` | the control flow graph of dexdump |
| `adb_connection.dfy`, `ddm_packets.dfy`, `jdwp_args.dfy` | the debugger connection's poll loop, its packets, and the agent's options |
| `access_flags.dfy`, `memory_option.dfy` | a population count that sizes a buffer, and memory sizes on the command line |
| `options.dfy` | values that may be absent, used throughout |

Code that works by updating state is modelled by classes and loops. Each such method is proved
against a function of the old state, and the lemmas are about those functions.

## Main results

- **Rollback restores.** In every run of nested transactions, with writes, allocations, interning,
  aborts, commits and collections in any order, rolling back all open transactions gives every object
  that existed at the start its old content back, at its present address: all fields but the class, at
  offset 0, and the length of an array, at offset 8; all integer elements; and floating point elements
  that are whole numbers below 2^64. Excepted are cells whose only record was dropped by committing a
  nested transaction (`Restoration.RollbackRestores`, `Commits.LostIff`). Without commits nothing is lost
  (`Commits.RollbackRestoresEverything`); in strict runs a class whose own transaction was not committed is restored in full even though nested
  ones were committed (`Commits.RootClassRestored`).
- **Moving objects makes no difference.** Updating all roots and then rolling back gives the moved
  image of rolling back first (`Rollback.RollbackCommutesWithMove`).
- **Failed initialisation leaves no trace.** However initialisers nest, throw and catch, and whatever
  collections happen meanwhile, a failed attempt followed by `RollbackAllTransactions` leaves no
  transaction open and every field of the class as it was (`ClassInit.FailedInitRestoresClass`, and for
  the linker's own methods `ClassInitializer.TryInitialize`). For a boot image, where nested initialisers
  share one transaction, everything else is restored as well
  (`ClassInit.FailedPlainInitRestoresEverything`).
- **Initialisers do what they may and nothing else.** Over every run the boot image stays as it is but for
  class statuses (`InitEffects.BootImageNeverChanges`), a store is performed exactly where it is allowed
  (`InitEffects.StorePerformedIff`), and an initialiser that does nothing forbidden performs all its
  operations and succeeds (`InitEffects.UnforbiddenSucceeds`).
- **Replacing files is all or nothing** at every point of failure, and all unless something is denied,
  missing or in the way (`FileCommit.MoveAllOrAbandon`), so artifact sets are never mixed
  (`ArtifactCommit.CommitDexopt`, `ArtifactCommit.CommitPreRebootStagedFiles`).
- **Pre-reboot preparation happens once**: in every sequence of calls, failing or cancelled anywhere, at
  most one does any of it (`PreReboot.PreparedAtMostOnce`).
- **The drawn graph is exact**: block starts, fall-through and taken edges are those that the kinds and
  targets of the instructions mean, and the two-pass scheme for exception edges gives a block an edge to a
  handler exactly when one of its instructions has it, and instructions edges of their own exactly in
  blocks whose handlers differ (`ControlFlowGraph.BuildGraph`).
- **The poll loop**, written event by event, does what a description field by field says
  (`AdbConnection.StepIsDescribed`). It keeps its flags consistent with any agent, and with a well-behaved
  one hands over and skips the handshake only for the connection it was performed on (`AdbConnection`).

## Where a promise does not hold

Each of these is stated with the exact condition under which it holds; most come with an input that
shows the failure.

- The compiler driver asserts that no transaction is open after a successful initialisation. A nested
  initialiser that throws leaves its transaction open, and a handler may catch the exception, since only
  that of an aborted transaction cannot be caught. In strict mode the assertion therefore holds exactly
  when no failed nested initialisation was caught (`ClassInit.DriverLeavesNothingOpenIff`,
  `ClassInit.InitStack`); two classes are enough to break it (`CaughtFailure.CaughtFailureStaysOpen`,
  `CaughtFailure.ExampleStaysOpen`).
- `Transaction::UpdateKeys` checks that a new key is not taken. For an injective move this check fails
  exactly when some moving key's new address is a smaller key (`Relocation.UpdateKeys`);
  sliding objects down over one another is such a move (`Relocation.SlidingDownIsRejected`).
- Elements of float and double arrays are logged by value conversion to an integer. In the convertible
  range they are restored exactly when they are non-negative integers (`ManagedHeap.FloatRestoredIff`).
- The poll loop asserts that the agent has no connection when adbd goes away. Of its assertions about
  the connection and about whether the process can be debugged this is the only one that can fail, and a
  run with a well-behaved agent reaches it (`AdbConnection.AssertionFailsIff`,
  `AdbConnection.AdbdLeavesDuringDebugging`).
- `JdwpArgs` is meant to keep transport before address. This holds exactly when the user's options do
  not name address alone or first (`JdwpOptions.TransportBeforeAddressIff`).
- A DDM packet is read back as written exactly when its length fits in 32 bits
  (`DdmPackets.CommandRoundTrip`).
- The comment on `ParseMemoryOption` speaks of an optional multiplier. Without one, a number that does
  not fit is refused, while with one it is clamped (`MemoryOptions.BytesExactOrRefused`,
  `MemoryOptions.UnitsAlwaysFit`).

## Model

| member | source | states |
|---|---|---|
| `ManagedHeap.EncodeDecode` | dex2oat/transaction.cc:482-510 | every field and integer element value survives being stored as a 64-bit word in a log and written back, sign and width included |
| `ManagedHeap.FloatRestoredIff` | dex2oat/transaction.cc:771-782 | a float or double element in the convertible range is restored if and only if it is a non-negative integer |
| `ManagedHeap.FloatElementLost` | dex2oat/transaction.cc:771-782 | 3.5 comes back as 3 |
| `InternTables.UndoInvertsIffEffective` | dex2oat/transaction.cc:641-679 | undoing one logged table change gives the old tables if and only if the change really added or removed that entry |
| `InternTables.UndoRestoresTables` | dex2oat/transaction.cc:367-375 | undoing most recent first restores both tables after every sequence of effective changes, on top of any older log |
| `InternTables.InternOpsEffective` | runtime/intern_table.cc:206-258 | interning performs only effective changes, keeps the string that is found, and never puts a text into both tables |
| `InternTables.InternFinds` | runtime/intern_table.cc:206-258 | which object is returned and which entries the tables have afterwards, in each of the cases strong, weak, promoted and new |
| `InternTables.InternedIsCanonical` | runtime/intern_table.cc:206-258 | from then on every string with that text is interned as the same object |
| `Relocation.CollectMovingRoots` | dex2oat/transaction.cc:424-443 | the list collected in one pass over the keys holds exactly the keys that move, largest first, with their new addresses |
| `Relocation.UpdateKeys` | dex2oat/transaction.cc:411-422 | both checks pass for every moving key if and only if no moving key's new address is a smaller key, and then every entry is under its new key |
| `Relocation.UpdateKey` | dex2oat/transaction.cc:411-422 | one exchanged key keeps all other entries; a taken key proves that the move cannot be accepted |
| `Relocation.FreshTargetsCanRekey` | dex2oat/transaction.cc:411-422 | moves whose new addresses are no keys are always accepted |
| `Relocation.SlidingDownIsRejected` | dex2oat/transaction.cc:411-422 | an injective move that fails the check |
| `Relocation.InjectiveHasInverse` | dex2oat/transaction.cc:391-409 | every injective relocation has the two-way form the model uses |
| `Transactions.NoRecordsNeeded` | dex2oat/transaction.cc:187-201 | for an object that needs no records, recording anything leaves the transaction as it is |
| `Transactions.NoElementRecordsNeeded` | dex2oat/transaction.cc:195-201 | the same for all elements of an array at once, which justifies skipping the recording loop |
| `Transactions.NewNeedsNoRecords` | dex2oat/transaction.cc:167-201 | an object allocated in the transaction needs no records, also after further allocations, and other objects are not affected |
| `Transactions.FirstAbortWins` | dex2oat/transaction.cc:94-103 | the first message stays and nothing but flag and message changes |
| `Transactions.FieldUndoneIff` | dex2oat/transaction.cc:529-546 | a field gets its logged value back exactly if there is one and it is neither at offset 0 nor, in an array, at offset 8 |
| `Transactions.NeedsRecordsMoves` | dex2oat/transaction.cc:391-409 | a collection does not change which objects need records |
| `Transactions.UndoneInTwoPasses` | dex2oat/transaction.cc:335-365 | undoing object logs and then array logs is the same as undoing every location by itself |
| `Transactions.Transaction.constructor` | dex2oat/transaction.cc:44-63 | a new transaction has recorded nothing |
| `Transactions.Transaction.Abort` | dex2oat/transaction.cc:94-103 | only the first abort sets the message |
| `Transactions.Transaction.RecordNewObject` | dex2oat/transaction.cc:167-172 | the object is marked new and is the last one allocated |
| `Transactions.Transaction.RecordNewArray` | dex2oat/transaction.cc:174-185 | object arrays are recorded as objects, primitive arrays as arrays |
| `Transactions.Transaction.RecordWriteField` | dex2oat/transaction.cc:203-284 | the old value is kept if it is the first one for that field of an object that is neither new nor last allocated |
| `Transactions.Transaction.RecordWriteArray` | dex2oat/transaction.cc:286-294 | likewise for an array element |
| `Transactions.Transaction.LogInternedString` | dex2oat/transaction.cc:310-333 | a table change becomes the front of the log |
| `Transactions.Transaction.RecordArrayElements` | dex2oat/interpreter/interpreter_switch_impl1.cc:73-125 | recording the elements in a loop, or not at all for a new array, comes to recording each of them |
| `Transactions.Transaction.VisitRoots` | dex2oat/transaction.cc:391-409 | no check fails if and only if both key sets can be exchanged, and then every address in the transaction is the new one |
| `Transactions.Transaction.VisitObjectLogs` | dex2oat/transaction.cc:424-443 | keys and logged references of the object logs are exchanged, or the check fails, exactly when it must |
| `Transactions.Transaction.VisitArrayLogs` | dex2oat/transaction.cc:445-462 | the same for array logs |
| `Transactions.Transaction.Rollback` | dex2oat/transaction.cc:335-347 | every recorded location gets its recorded value, all others keep theirs, the tables are undone, the logs are empty |
| `Transactions.Transaction.UndoObjectModifications` | dex2oat/transaction.cc:349-356 | every logged field of every object is written back, in whatever order objects are visited |
| `Transactions.Transaction.UndoObjectLog` | dex2oat/transaction.cc:529-629 | every logged field of one object except its class and an array's length |
| `Transactions.Transaction.UndoArrayModifications` | dex2oat/transaction.cc:358-365 | every logged element of every array is written back |
| `Transactions.Transaction.UndoArrayLog` | dex2oat/transaction.cc:734-790 | every logged element of one array, cast to its component type |
| `Transactions.Transaction.UndoInternStringTableModifications` | dex2oat/transaction.cc:367-375 | the log is undone from the most recent change on |
| `Rollback.UnwoundByRecord` | dex2oat/aot_class_linker.cc:304-320 | after rolling back a stack, a location has the outermost recorded value, or its content if none recorded it |
| `Rollback.RollbackAllIsUnwinding` | dex2oat/aot_class_linker.cc:304-320 | rolling back the stack does to each location what its records say, and to nothing else |
| `Rollback.RollbackTopGood` | dex2oat/aot_class_linker.cc:312-320 | rolling back one transaction keeps the heap, tables, remaining logs and active flag consistent |
| `Rollback.RecordedMoves` | dex2oat/transaction.cc:391-462 | a visited transaction has recorded, for the moved location, the moved content |
| `Rollback.RolledBackMoves` | dex2oat/transaction.cc:391-462 | rolling back one visited transaction on the moved heap gives the moved rolled-back heap |
| `Rollback.UndoAllMoves` | dex2oat/transaction.cc:464-468 | undoing a visited intern log on moved tables gives the moved undone tables |
| `Rollback.RollbackCommutesWithMove` | dex2oat/transaction.cc:391-462 | for every injective move of all objects, collecting and rolling back everything commute |
| `TransactionRuns.StepGood` | dex2oat/aot_class_linker.cc:263-320 | every operation keeps logs within the heap, references valid, and the active flag equal to whether a transaction is open |
| `TransactionRuns.EnabledIff` | dex2oat/aot_class_linker.cc:384-443 | what each operation needs, in terms of cells, values and addresses |
| `TransactionRuns.OnlyStackChanges` | dex2oat/aot_class_linker.cc:269-302 | entering, committing and aborting change neither heap nor tables, and of the stack only the top |
| `TransactionRuns.WriteIsVisible` | dex2oat/aot_class_linker.cc:384-443 | a stored value is found at its location and every other cell is as before |
| `TransactionRuns.AllocationIsVisible` | dex2oat/interpreter/interpreter_switch_impl1.cc:57-65 | a new object has exactly the cells given, needs no records if recorded, and nothing else changes |
| `TransactionRuns.WrittenOneByOne` | dex2oat/interpreter/interpreter_switch_impl1.cc:73-125 | recording all elements and then filling the array is the same as recording and writing element by element |
| `Restoration.RecordSame` | dex2oat/transaction.cc:512-527 | a first record is the content at that time and later ones change nothing, for fields and elements |
| `Restoration.RecordOther` | dex2oat/transaction.cc:512-527 | recording one location leaves the record of every other one alone |
| `Restoration.StepKeepsObject` | dex2oat/transaction.cc:167-201 | objects from before the run stay, and no transaction ever skips their records as new or last allocated |
| `Restoration.StepKeepsCell` | dex2oat/transaction.cc:203-365 | no operation changes what rolling everything back would put into an old location, unless it loses the only record |
| `Restoration.RollbackRestores` | dex2oat/aot_class_linker.cc:269-320 | the restoration theorem over every run, with nesting, commits and collections |
| `Commits.CommitThenRollback` | dex2oat/aot_class_linker.cc:294-320 | after an inner commit, a location recorded further out ends as without the commit and any other keeps what the inner one left |
| `Commits.LostIff` | dex2oat/aot_class_linker.cc:294-302 | a record is lost exactly by committing the only open transaction that has it |
| `Commits.NoCommitLosesNothing` | dex2oat/aot_class_linker.cc:294-302 | runs without commits lose no record |
| `Commits.RollbackRestoresEverything` | dex2oat/aot_class_linker.cc:269-320 | in every run without commits all restorable locations and both intern tables are restored |
| `Commits.StepKeepsRootSafe` | dex2oat/transaction.cc:124-137 | under the strict write constraint no transaction records fields of a class other than its root |
| `Commits.RootClassRestored` | dex2oat/aot_class_linker.cc:76-111 | in strict runs all fields of a class are restored although transactions of other classes were committed |
| `AotLinker.AotClassLinker.IsActiveTransaction` | dex2oat/aot_class_linker.cc:263-267 | the flag is set if and only if the stack is not empty and its top is not rolling back |
| `AotLinker.AotClassLinker.IsActiveStrictTransactionMode` | dex2oat/aot_class_linker.cc:332-334 | true exactly when the innermost open transaction is strict |
| `AotLinker.AotClassLinker.EnterTransactionMode` | dex2oat/aot_class_linker.cc:269-292 | a new transaction on top, all others unchanged |
| `AotLinker.AotClassLinker.ExitTransactionMode` | dex2oat/aot_class_linker.cc:294-302 | the top is dropped without touching the heap; the flag is cleared with the last one |
| `AotLinker.AotClassLinker.RollbackAndExitTransactionMode` | dex2oat/aot_class_linker.cc:312-320 | the top is rolled back with recording off and dropped; recording is on again if others remain |
| `AotLinker.AotClassLinker.RollbackAllTransactions` | dex2oat/aot_class_linker.cc:304-310 | terminates with an empty stack and the heap unwound through all of it |
| `AotLinker.AotClassLinker.SetCell` | dex2oat/aot_class_linker.cc:384-443 | a store records the old content in the innermost transaction and changes that cell only |
| `AotLinker.AotClassLinker.NewObject` | dex2oat/interpreter/interpreter_switch_impl1.cc:57-65 | an allocation adds the object and marks it new in the innermost transaction |
| `AotLinker.AotClassLinker.FillArrayData` | dex2oat/interpreter/interpreter_switch_impl1.cc:73-125 | all old elements are recorded before any is replaced |
| `AotLinker.AotClassLinker.VisitTransactionRoots` | dex2oat/aot_class_linker.cc:511-515 | all transactions refer to the new addresses, or a check fails, exactly when some log cannot exchange its keys |
| `AotLinker.AotClassLinker.CollectGarbage` | dex2oat/aot_class_linker.cc:511-515 | a moving collection changes heap, tables and all transactions as one move |
| `AotLinker.AotClassLinker.AbortTransaction` | dex2oat/aot_class_linker.cc:490-504 | only the innermost transaction is aborted |
| `AotLinker.AotClassLinker.TransactionWriteConstraint` | dex2oat/aot_class_linker.cc:336-347 | a store is refused, by aborting, exactly for boot image objects and, in strict mode, for classes other than the root |
| `AotLinker.AotClassLinker.InternString` | runtime/intern_table.cc:206-258 | the tables change as interning says, each change is recorded, and the string found is returned |
| `ClassInit.StepOnlyTop` | dex2oat/aot_class_linker.cc:384-504 | stores, allocations, interning and aborts change only the innermost transaction |
| `ClassInit.BodyTracks` | runtime/interpreter/interpreter_switch_impl-inl.h:300-355 | an initialiser, whatever it runs, throws or catches, changes only the innermost transaction and what it pushes above; its height is unchanged in a transaction that is not aborted if and only if no nested strict initialiser failed |
| `ClassInit.InitStack` | dex2oat/aot_class_linker.cc:50-111 | for every nesting, all transactions stay beneath what remains, and strict success leaves the stack exactly as it was, but for collections, if and only if no failed nested initialisation was caught; outside strict mode the height never changes |
| `ClassInit.InitWatched` | dex2oat/aot_class_linker.cc:76-111 | nested strict initialisers never lose a record of the class being initialised, whether they succeed, fail or catch, wherever collections move it |
| `ClassInit.InitInOneTransaction` | dex2oat/aot_class_linker.cc:96-111 | outside strict mode no nested transaction is entered, left or committed |
| `ClassInit.AcceptedClassOwnsItself` | dex2oat/aot_class_linker.cc:58-98 | a class that passes the checks in strict mode may, in the transaction opened for it, be stored into by its initialiser, and no other class may: such a store aborts |
| `InitEffects.StorePerformedIff` | dex2oat/transaction.cc:124-137 | a store is performed if and only if the object is outside the boot image and, in strict mode, is no class but the root; otherwise the transaction is aborted |
| `InitEffects.OthersPerformed` | dex2oat/interpreter/interpreter_switch_impl1.cc:57-65 | allocations, interning and collections that are possible are performed |
| `InitEffects.InitPermitted` | dex2oat/aot_class_linker.cc:336-347 | for every script, all stores of an initialisation and its nested ones are of class statuses or allowed, and nothing is rolled back |
| `InitEffects.BootImageNeverChanges` | dex2oat/transaction.cc:127-131 | in every attempt no cell of a boot image object changes, wherever it moves, except the status of a class |
| `InitEffects.BegunOnce` | dex2oat/aot_class_linker.cc:55-58 | a class that is initialised or being initialised is left alone |
| `InitEffects.RefusedIff` | dex2oat/aot_class_linker.cc:60-94 | which classes are refused in each mode, by an abort and nothing else; every other class is begun |
| `InitEffects.ErroneousFails` | runtime/class_linker.cc:5969-5974 | an erroneous class is not initialised again |
| `InitEffects.StatusTellsResult` | runtime/class_linker.cc:6210-6240 | success leaves the class initialised, failure erroneous, for every script |
| `InitEffects.ScriptPerformed` | dex2oat/interpreter/interpreter_switch_impl1.cc:57-125 | a body of permitted operations performs all of them in order and completes |
| `InitEffects.UnforbiddenSucceeds` | dex2oat/aot_class_linker.cc:50-111 | a class with such an initialiser is initialised, in strict mode in a transaction of its own that is committed |
| `ClassInit.FailedInitRestoresClass` | dex2oat/driver/compiler_driver.cc:2452-2486 | after a failed attempt, strict or not, and rolling back, no transaction is open and every field of the class, its status among them, is as before, at its present address |
| `ClassInit.FailedPlainInitRestoresEverything` | dex2oat/driver/compiler_driver.cc:2452-2486 | outside strict mode a failed attempt and rolling back restore every restorable cell and both intern tables |
| `ClassInit.DriverLeavesNothingOpenIff` | dex2oat/driver/compiler_driver.cc:2452-2465 | after success the driver has exactly its own transaction left to close if and only if the attempt was not strict or no failed nested initialisation was caught |
| `CaughtFailure.CaughtFailureStaysOpen` | dex2oat/aot_class_linker.cc:96-111 | for every two classes that can be initialised, one catching the failure of the other: initialisation succeeds and more than the driver's transaction is left open |
| `CaughtFailure.ExampleStaysOpen` | dex2oat/driver/compiler_driver.cc:2462-2465 | a world with two verified classes in which the driver's assertion fails |
| `ClassInitializer.InitializeClass` | dex2oat/aot_class_linker.cc:50-111 | the linker ends in the world, with the result and with the handles, that the script semantics gives, on which the stack discipline is proved |
| `ClassInitializer.BaseInitializeClass` | runtime/class_linker.cc:6063-6225 | status changes around the actions of an initialiser, on the linker; returning in an aborted transaction is a failure |
| `ClassInitializer.TryInitialize` | dex2oat/driver/compiler_driver.cc:2452-2486 | in both modes, on failure no transaction is open and every field of the class has its old content, outside strict mode everything else too; on success heap and tables are as the initialisers left them, and no transaction is open if and only if not strict or no failed nested initialisation was caught |
| `FileCommit.TempPathIsTemp` | artd/file_utils.cc:252-254 | a temporary name is what the temporary-file call may return, and the identifier can be read back from it |
| `FileCommit.MoveAside` | artd/file_utils.cc:183-211 | an old file is found absent, moved to an unused temporary name, or nothing has changed; with a system that denies nothing only a directory makes it fail |
| `FileCommit.MoveOldFilesAside` | artd/file_utils.cc:174-211 | up to the first problem, exactly the existing targets have been moved to unused names |
| `FileCommit.MoveNewFilesIn` | artd/file_utils.cc:213-221 | up to the first problem, exactly the first files have been moved in |
| `FileCommit.Abandon` | artd/file_utils.cc:150-157 | new files are removed wherever they have got to |
| `FileCommit.Restore` | artd/file_utils.cc:159-171 | old files go back to where they were |
| `FileCommit.FailureRestores` | artd/file_utils.cc:143-233 | from every point of failure the undo steps give the old file system minus the sources |
| `FileCommit.SuccessCommits` | artd/file_utils.cc:143-233 | after all steps each destination has its source's content and nothing else remains |
| `FileCommit.CanMoveIn` | artd/file_utils.cc:213-221 | once the old files are aside, each new file that exists can be moved in |
| `FileCommit.FailureCanMoveBack` | artd/file_utils.cc:150-171 | once the new files are given up, each old file can be moved back |
| `FileCommit.NamesStillUnused` | artd/file_utils.cc:188-199 | temporary names of different paths never meet |
| `FileCommit.MoveAllOrAbandon` | artd/file_utils.cc:143-233 | all or nothing at every failure point; no temporary file remains; if the system denies no call and the names drawn are unused, it succeeds exactly when all sources exist and no target is a directory, and no clean-up step fails |
| `ArtifactCommit.NewFile.Init` | artd/file_utils.cc:104-118 | an open file is a new temporary file from which its name can be rebuilt; otherwise nothing was created |
| `ArtifactCommit.NewFile.Cleanup` | artd/file_utils.cc:94-102 | only a file that is still open is removed |
| `ArtifactCommit.NewFile.CommitOrAbandon` | artd/file_utils.cc:78-92 | the file replaces its destination, or it is removed and the destination is untouched |
| `ArtifactCommit.CommitAllOrAbandon` | artd/file_utils.cc:125-141 | all or nothing also when a file cannot be closed, and all if every file can be closed, exists, and nothing is denied or in the way |
| `ArtifactCommit.KeepAll` | artd/file_utils.cc:125-141 | closing stops at the first failure, before anything is moved |
| `ArtifactCommit.SetOutcome` | artd/artd.cc:1461-1470 | a listed set is wholly new on success and wholly old on failure |
| `ArtifactCommit.CommitDexopt` | artd/artd.cc:1327-1339 | compiled code, verification data and image are all new, with an image exactly if one was made, or all old; new if nothing is denied, missing or in the way |
| `ArtifactCommit.SelectArtifacts` | artd/artd.cc:1834-1855 | exactly the sets whose code file is staged are selected; an image that was not staged is to be removed |
| `ArtifactCommit.StagedPaths` | artd/artd.cc:1834-1866 | the files moved, and those replaced or removed, are exactly those of sets whose code file is staged and of staged profiles |
| `ArtifactCommit.CommitPreRebootStagedFiles` | artd/artd.cc:1827-1881 | every selected set is wholly new and every staged profile in its place, or nothing but the staged files has changed; it fails only if something is denied or in the way or verification data is missing; the result tells whether anything was staged |
| `Cancellation.KillsReach` | artd/artd.cc:1477-1487 | killing the registered processes in any order reaches each of them and no other |
| `Cancellation.StepGood` | artd/artd.cc:1494-1516 | each call keeps kills within registered periods and, once cancelled, reaches every registered process |
| `Cancellation.EveryInterleavingGood` | artd/artd.cc:1477-1521 | in every interleaving no kill goes to an unregistered process, and once cancelled every registered process and its group have been killed since registration |
| `Cancellation.NeverReset` | artd/artd.h:123-130 | a cancelled signal stays cancelled |
| `Cancellation.CancelledIff` | artd/artd.cc:1477-1480 | the signal is cancelled exactly if a client has called cancel |
| `Cancellation.RegisteredIff` | artd/artd.cc:1494-1516 | exactly the processes that started and have not ended since are registered |
| `Cancellation.NoKillBeforeCancel` | artd/artd.cc:1494-1516 | until a client cancels, starts and ends are noted and nothing is killed |
| `Cancellation.CancelKillsEach` | artd/artd.cc:1477-1487 | each call kills every registered process and then its group, once |
| `Cancellation.LateStartIsKilled` | artd/artd.cc:1497-1508 | a process that starts after cancellation is killed once, with its group |
| `Cancellation.ArtdCancellationSignal.CancelSignal` | artd/artd.cc:1477-1487 | the loop over the set kills each registered process and its group |
| `Cancellation.ArtdCancellationSignal.Register` | artd/artd.cc:1497-1508 | a process that starts after cancellation is killed at once |
| `Cancellation.ArtdCancellationSignal.Unregister` | artd/artd.cc:1509-1514 | the process takes no further kills |
| `PreReboot.Artd.DeriveClasspath` | artd/artd.cc:2377-2418 | a failure leaves no file or an unfinished one; success a derived classpath |
| `PreReboot.Artd.BindMountNewDir` | artd/artd.cc:2259-2264 | at most one mount, and none without its directory |
| `PreReboot.Artd.BuildBootImages` | artd/artd.cc:2420-2460 | ready only with boot images built, and ready if nothing fails; a run that could not end counts as cancelled exactly if it was |
| `PreReboot.Artd.PreRebootInit` | artd/artd.cc:2277-2337 | every call, failing or cancelled anywhere, keeps: nothing is mounted twice, the marker means everything was done; preparation that was begun is neither continued nor repeated, finished preparation is left as it is; if nothing fails the answer is ready, or fatal for preparation only begun |
| `PreReboot.PreparedAtMostOnce` | artd/artd.cc:2289-2299 | in every sequence of calls at most one does any preparation, on a clean device, and nothing is mounted more than once |
| `PreReboot.ReadyOnlyWhenComplete` | artd/artd.cc:2289-2337 | a call is answered ready only when everything has been done, and never after a call that began and did not finish |
| `ControlFlowGraph.CollectTargets` | dexdump/dexdump_cfg.cc:41-70 | exactly the addresses that branches and switches name |
| `ControlFlowGraph.BlocksPartition` | dexdump/dexdump_cfg.cc:72-139 | two instructions share a block if and only if none after the first, up to the second, begins one |
| `ControlFlowGraph.NumberBlocks` | dexdump/dexdump_cfg.cc:72-139 | the two tables give block numbers of block starts and of all instructions |
| `ControlFlowGraph.TargetIsLeader` | dexdump/dexdump_cfg.cc:80-92 | every target that is an instruction begins a block and is found under its number |
| `ControlFlowGraph.EdgesExact` | dexdump/dexdump_cfg.cc:186-251 | the emitted fall-through and taken edges are exactly those of the instructions |
| `ControlFlowGraph.FlushSettles` | dexdump/dexdump_cfg.cc:168-182 | emitting the common handlers of a block covers all its instructions and nothing else |
| `ControlFlowGraph.FurtherInBlock` | dexdump/dexdump_cfg.cc:253-264 | an instruction agrees with the common handlers or makes its block detailed |
| `ControlFlowGraph.ConnectBlocks` | dexdump/dexdump_cfg.cc:151-288 | both edge lists, and exception edges that cover every block that is not detailed |
| `ControlFlowGraph.DetailBlock` | dexdump/dexdump_cfg.cc:290-331 | the walk covers the instructions of the block up to its end |
| `ControlFlowGraph.DetailBlocks` | dexdump/dexdump_cfg.cc:290-331 | with the detailed blocks added every instruction is covered |
| `ControlFlowGraph.ExceptionsExact` | dexdump/dexdump_cfg.cc:274-331 | a block has an edge to a handler if and only if one of its instructions has that handler and it is an instruction |
| `ControlFlowGraph.NumberedIs` | dexdump/dexdump_cfg.cc:72-139 | blocks begin at instruction 0, at targets, and behind goto, if, switch, return and throw, and are numbered in order |
| `ControlFlowGraph.FallThroughIs` | dexdump/dexdump_cfg.cc:186-271 | control falls into a block exactly from a plain, if or switch instruction right before it |
| `ControlFlowGraph.JumpIs` | dexdump/dexdump_cfg.cc:186-251 | taken edges lead exactly from an instruction to the instructions it names |
| `ControlFlowGraph.OwnEdgeIs` | dexdump/dexdump_cfg.cc:253-331 | an instruction has exception edges of its own exactly if some instruction of its block lacks a handler of an earlier one |
| `ControlFlowGraph.BuildGraph` | dexdump/dexdump_cfg.cc:34-346 | blocks, regular, taken and exception edges of the whole graph are exact, in terms of the kinds, targets and handlers of instructions |
| `AdbConnection.StepConsistent` | adbconnection/adbconnection.cc:664-810 | each event keeps the flags consistent, whatever the agent does |
| `AdbConnection.EveryRunConsistent` | adbconnection/adbconnection.cc:664-810 | in every run listening, having and having been sent a socket imply a loaded agent; only a process that can be debugged has a connection or an agent; connect and disconnect notices alternate; before loading, a notice implies a handshake implies a socket |
| `AdbConnection.SocketNeverReplaced` | adbconnection/adbconnection.cc:749-769 | between two different connections there is a moment without any |
| `AdbConnection.RepliesMatchCommands` | adbconnection/adbconnection.cc:893-917 | a reply is written only for a chunk that was read after a handshake, under that chunk's id |
| `AdbConnection.EveryChunkAnswered` | adbconnection/adbconnection.cc:893-917 | conversely every chunk that has an answer is answered, under its id |
| `AdbConnection.StepIsDescribed` | adbconnection/adbconnection.cc:709-958 | every event changes the state as a description says that gives each flag, the connection, the notices, the handovers and the replies by themselves |
| `AdbConnection.PollSet` | adbconnection/adbconnection.cc:677-698 | which events the loop waits for |
| `AdbConnection.EveryProperRunSound` | adbconnection/adbconnection.cc:664-810 | with a well-behaved agent, what it was sent or has is the connection held, never both, and a handshake belongs to a connection |
| `AdbConnection.AssertionFailsIff` | adbconnection/adbconnection.cc:709-800 | with a well-behaved agent, of the assertions about the connection and about debugging being possible only the one at adbd's hang-up can fail, exactly when the agent has a connection |
| `AdbConnection.AdbdLeavesDuringDebugging` | adbconnection/adbconnection.cc:776-783 | a run that reaches the failing assertion |
| `AdbConnection.HandshakeIsCurrent` | adbconnection/adbconnection.cc:410-426 | the handshake in force was completed on the connection open now, which has not changed since |
| `AdbConnection.HandshakeSkippedOnlyWhenDone` | adbconnection/adbconnection.cc:721-725 | the agent is told to skip the handshake only on a connection where it was performed |
| `AdbConnection.AdbConnectionState.CloseFds` | adbconnection/adbconnection.cc:410-426 | the connection and its handshake are gone, and an active DDM client is told unless the agent is loaded |
| `AdbConnection.AdbConnectionState.NotifyDdms` | adbconnection/adbconnection.cc:428-437 | one notice, and only of a change |
| `AdbConnection.AdbConnectionState.SendAgentFds` | adbconnection/adbconnection.cc:570-614 | the connection held is handed over once delivered |
| `AdbConnection.AdbConnectionState.SendDdmPacket` | adbconnection/adbconnection.cc:483-549 | the packet's bytes are written, unless there is no connection with a handshake |
| `AdbConnection.AdbConnectionState.PerformHandshake` | adbconnection/adbconnection.cc:919-958 | performed exactly when all fourteen bytes are there, right and answered; closed otherwise |
| `AdbConnection.AdbConnectionState.HandleDataWithoutAgent` | adbconnection/adbconnection.cc:819-917 | handshake first, then close, load the agent, ignore or handle a chunk, as the data says |
| `AdbConnection.AdbConnectionState.AttachJdwpAgent` | adbconnection/adbconnection.cc:960-978 | loaded exactly if attaching worked |
| `AdbConnection.AdbConnectionState.HandleAgentMessage` | adbconnection/adbconnection.cc:709-742 | the flags after each of the agent's messages |
| `AdbConnection.AdbConnectionState.ReceiveConnection` | adbconnection/adbconnection.cc:743-775 | a new connection is taken only if there is none and the process can be debugged |
| `AdbConnection.AdbConnectionState.RunPollLoop` | adbconnection/adbconnection.cc:664-810 | the object is in the state that the run gives, and consistent |
| `DdmPackets.WritePacket` | adbconnection/adbconnection.cc:483-549 | filling the header field by field gives the packet of section "JDWP Packets" of the Java Debug Wire Protocol specification, with a DDM chunk |
| `DdmPackets.ValueOfBytes` | adbconnection/adbconnection.cc:812-817 | reading undoes writing a 32-bit number in network order |
| `DdmPackets.PacketLayout` | adbconnection/adbconnection.cc:505-542 | what each byte of a packet is, most significant first, flags and command bytes included |
| `DdmPackets.ReadByContent` | adbconnection/adbconnection.cc:828-882 | when data closes the connection, loads the agent or is handled, in terms of its bytes and of failing calls |
| `DdmPackets.ChunkByContent` | adbconnection/adbconnection.cc:884-903 | a chunk is handled exactly if it fits into its packet, and is what the bytes say |
| `DdmPackets.ChunkInsidePacket` | adbconnection/adbconnection.cc:850-897 | an accepted chunk lies inside its packet and the packet inside what has arrived |
| `DdmPackets.CommandRoundTrip` | adbconnection/adbconnection.cc:850-897 | a command is read as written, leaving what follows, if and only if its length fits in 32 bits |
| `DdmPackets.ReplyIsNoCommand` | adbconnection/adbconnection.cc:862-869 | a reply is never taken for a command |
| `DdmPackets.StreamRoundTrip` | adbconnection/adbconnection.cc:840-897 | packets sent one after another are received one by one, in order |
| `JdwpOptions.JdwpArgs.constructor` | adbconnection/jdwpargs.cc:26-52 | the pieces between commas, without white space and without malformed ones, are stored in turn; keys are distinct and those of the store |
| `JdwpOptions.JdwpArgs.Put` | adbconnection/jdwpargs.cc:54-60 | a new key goes to the end, an old one keeps its place and gets the new value |
| `JdwpOptions.JdwpArgs.Join` | adbconnection/jdwpargs.cc:62-74 | the entries in key order with a comma between any two |
| `JdwpOptions.LastValueWins` | adbconnection/jdwpargs.cc:26-60 | a key is stored if and only if an entry names it, with the value of the last such entry |
| `JdwpOptions.FirstEntryOrders` | adbconnection/jdwpargs.h:26-31 | keys stand in the order of the first entries that name them |
| `JdwpOptions.StrippedConcat` | adbconnection/jdwpargs.cc:34-35 | white space is left out wherever it stands |
| `JdwpOptions.StrippedOne` | adbconnection/jdwpargs.cc:34-35 | which characters count as white space |
| `JdwpOptions.JoinedIsSeparated` | adbconnection/jdwpargs.cc:62-74 | options are printed as key=value in order with commas between them |
| `JdwpOptions.RoundTripIff` | adbconnection/jdwpargs.cc:26-74 | printed options are read back the same if and only if every key and value could have been read |
| `JdwpOptions.ParsedRoundTrip` | adbconnection/jdwpargs.cc:26-74 | for every option string, reading what was printed gives the same keys, order and values |
| `JdwpOptions.TransportBeforeAddressIff` | adbconnection/adbconnection.cc:1032-1061 | transport precedes address if and only if the user does not name address alone or first |
| `JdwpOptions.UserAddressComesFirst` | adbconnection/adbconnection.cc:1032-1061 | an option string for which address comes first |
| `JdwpOptions.AgentArgsValues` | adbconnection/adbconnection.cc:1003-1061 | the fixed options have their values whatever the user says, all others are the user's, a relative log file is made absolute |
| `JdwpOptions.AgentArgsKeys` | adbconnection/adbconnection.cc:1040-1055 | the user's keys come first and the missing fixed ones behind them in order |
| `JdwpOptions.MakeAgentArg` | adbconnection/adbconnection.cc:1003-1061 | the argument is the agent's name and the printed options, with a relative log file made absolute |
| `AccessFlags.CountOnes` | dexdump/dexdump.cc:233-237 | the bit tricks count the set bits of every 32-bit word |
| `AccessFlags.CreateAccessFlagStr` | dexdump/dexdump.cc:245-331 | every write is inside the buffer, which ends up holding the names of the set flags with single spaces and a terminator |
| `AccessFlags.TextReadsBack` | dexdump/dexdump.cc:308-331 | split at spaces the text gives the names of exactly the flags that are set |
| `AccessFlags.NamesHaveNoSpace` | dexdump/dexdump.cc:246-303 | no name has a space in it, so this applies to every table |
| `AccessFlags.ClassFlagMeanings` | dexdump/dexdump.cc:247-265 | the name of each class flag |
| `AccessFlags.MethodFlagMeanings` | dexdump/dexdump.cc:266-284 | the name of each method flag |
| `AccessFlags.FieldFlagMeanings` | dexdump/dexdump.cc:285-303 | the name of each field flag |
| `MemoryOptions.ParseMemoryOption` | cmdline/cmdline_types.h:145-195 | the size that the text stands for, clamped, if the divisor divides it, and 0 otherwise or for malformed text |
| `MemoryOptions.Scaling` | cmdline/cmdline_types.h:176-182 | the overflow test finds exactly the products that do not fit, also when the number itself was saturated |
| `MemoryOptions.UnitsAlwaysFit` | cmdline/cmdline_types.h:145-195 | with a unit and divisor 1024 the result is the exact product or the largest multiple of 1024, for digits of any length |
| `MemoryOptions.BytesExactOrRefused` | cmdline/cmdline_types.h:184-188 | without a unit the number is accepted as it is or refused |
| `MemoryOptions.SizeOfWritten` | cmdline/cmdline_types.h:145-195 | for every number and whatever stands behind its digits: the size, clamped, or a refusal |
| `MemoryOptions.NoNumber` | cmdline/cmdline_types.h:145-149 | text that does not begin with a digit is refused |
| `MemoryOptions.LeadingZero` | cmdline/cmdline_types.h:150 | zeros in front do not matter |
| `MemoryOptions.DecimalOfDigits` | cmdline/cmdline_types.h:150-156 | reading undoes writing a number in decimal |

## Left out

- ManagedHeap.FloatRestoredIff: element values are real numbers, so a negative zero, which comes back as positive zero, is not told apart, and infinities and NaN do not occur.
- Transactions.Transaction.Rollback: the caches of resolved strings and method types are not part of the model; undoing them clears the entries added, which would only add easy members.
- Restoration.RollbackRestores: class fields and array lengths are not restored, as in the code, and float and double elements only where the conversion keeps them; collections move objects but free none.
- Commits.RollbackRestoresEverything: collections do not sweep the weak intern table, so an entry whose string has died, which the code drops without a record, stays and is restored.
- AotLinker.AotClassLinker.EnterTransactionMode: making initialised classes visibly initialised before the outermost transaction is not modelled.
- AotLinker.AotClassLinker.CollectGarbage: a collection happens only where every transaction can exchange its keys; the other case is a failed check and is stated for VisitTransactionRoots.
- FileCommit.MoveAllOrAbandon: nothing is stated about the files when a clean-up step itself fails; the code only logs that. The random part of a temporary name is taken not to hit an argument path that does not exist at that time.
- ClassInitializer.BaseInitializeClass: the base class linker's locking, verification and superclass initialisation are not modelled; a script of actions stands for what it and the interpreter do, a missing class is refused, and classes in the boot image count as boot classes.
- ClassInitializer.InitializeClass: the case outside any transaction is left to the base class linker and not modelled.
- Restoration.StepKeepsCell: fields are typed and do not overlap, and volatile ordering, locks and arenas have no counterpart in the model.
- FileCommit.NamesStillUnused: `mkstemps` tries names until one is free; in the model a name is drawn once, and a name in use counts as a failed call.
- PreReboot.Artd.PreRebootInit: calls are sequential and nothing else empties the temporary directory; environment variables are not modelled.
- Cancellation.EveryInterleavingGood: the lock is taken for granted, so calls are atomic; whether the kernel delivers a signal is not modelled.
- ControlFlowGraph.BuildGraph: instructions are decoded records without gaps between them, and exception edges form a set, so repeated lines of output are not told apart.
- AdbConnection.EveryRunConsistent: the control connection to adbd, its reconnection and process updates are not part of the state; messages from the agent are an enumeration and system calls succeed or fail by parameter.
- AdbConnection.AssertionFailsIff: checks that system calls succeeded, that the process can be debugged or profiled at all, and that peeked and received bytes agree are not among the assertions; those of NotifyDdms and PerformHandshake are preconditions of the methods.
- AdbConnection.AdbConnectionState.SendDdmPacket: a failed or short write, which the code only logs, counts as a write.
- DdmPackets.StreamRoundTrip: a receive call returns all the bytes asked for, and the number of readable bytes is not cut to 32 bits.
- MemoryOptions.ParseMemoryOption: the C library's conversion is taken to saturate at the largest size.
- Transaction read and value constraints, and which classes a boot image extension may refer to: they rest on runtime classes outside the modelled files.
- artd's binder interface, SELinux labels, running dex2oat, profman and odrefresh, and logging: input and output.
- dexopt_chroot_setup: its guarantee depends on mount propagation in the kernel.
- The generic command-line parser, token ranges, and the dex2oat driver with its image and oat writers: orchestration over other libraries.
- Text output of dexdump and dexlist, and escaping in the drawn graph.
