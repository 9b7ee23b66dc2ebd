# Csound engine: verified model

A Dafny model of five parts of the Csound engine, with proofs of what each of them is
for. `dafny verify dfyconfig.toml` checks everything.

**Parallel dispatcher.** `DagBuild` turns the chain of active instances into a
dependency graph, in place, with the sets of `ParSet`, and restores it between
periods. `Dispatch` is the protocol of `dag_get_task` and `dag_end_task` as a step
system: one atomic read, write or compare-and-swap is one step of one thread.
`DispatchInvariant` holds its invariant, `DispatchSafety` and `DispatchProgress` the
results over whole runs, `DispatchHistory` what the threads decide from what they have
read, `DispatchStops` how a fair run ends, `WeakClaims` what a weak
compare-and-swap does, and `DispatchPointers` refines the lists to head pointers and
reused nodes. `SerialEquivalence` lets bodies run action by action under the protocol
and shows the result to be that of the chain in order; `SerialExact` says exactly when.

**Copy-on-write arrays.** `CowArrays` is the storage protocol as a step system: each
lock section is a step, and so is each element cloned outside the lock. Beside it runs
a model in which every copy is deep. `CowInvariant` and `CowSteps` prove the invariant,
`CowRuns` the results, `CowAdmission` when operations fail and what the write-owned
marker is for, and `CowOverlap` that operations on one array must be apart.

**Optimiser.** `Resolved` gives resolved code a meaning, init pass and performance
passes, with uninterpreted operators and with unknown statements that may change any
name, may jump, and may read anything but the generated names they do not mention
(`Fair`; `OpcodesAreFair` shows what that allows). `LiteralFolding`, `ScalarCse`, `CopyRemoval` and
`AudioFusion` are the passes, `UseCounts` their counting, `Optimizer` any selection of
them.

**Lowering and analysis.** `ControlFlow` and `ControlLowering` compare structured code
with its labels and gotos, `LoweringLimits` shows that the two conditions needed are
exact. `ExpressionFlattening` does the same for expression trees whose calls may change
the variables, and `ExpressionOrder` says when the code keeps the order of reading.
`UdoRates` is the
rate classification of user-defined opcodes, `InitGetters` the choice of getters that can
run at init time only, `TypeContainment` the search over struct
types.

**Type strings and hash table.** `TypeStrings`, `TypeLists` and `TypeForms` are the
parser and printers of type descriptors, `ArgMatching` the two argument matchers,
`HashTable` the resizing chained table.

## What the proofs found

- The compare-and-swap of `dag_get_task` is the weak form (Engine/cs_new_dispatch.c:328).
  A spurious failure skips a task for good, and INVALID may then be returned while that
  task is unclaimed: `WeakClaims.InvalidIsTrustedIffStrong`, for any graph with a task
  that has no edges. Safety does not depend on it; progress is proved for the strong form.
- `dag_build` compares no read-write set with another (Engine/cs_new_dispatch.c:252-266).
  The outcome is serial if and only if other edges order all such pairs:
  `SerialExact.SerialExactlyWhenCovered`.
- A copy-on-write buffer is kept alive by the reference of the array it is cloned for
  (Engine/csound_standard_types.c:1302-1303) only while that array has one writer. With
  two, one gives the reference up while the other clones:
  `CowOverlap.SafeExactlyApart`.
- Common-subexpression removal relies on generated results not overwriting their own
  operands: `ScalarCse.CurrentExactly`, `ScalarCse.ReuseExactly`,
  `ScalarCse.SelfReadBreaksReuse`. One run of it can leave what the next would drop:
  `CseLimits.OneRunIsNotEnough`.
- An if-else lowered while the label counter is zero falls through
  (Engine/csound_orc_expressions.c:2144); the engine starts it at 300
  (Top/csound.c:772): `LoweringLimits.FaithfulExactly`.
- A `for` over an empty array runs its body once: `LoweringLimits.LoopsRightExactly`.
- `&&` and `||` evaluate both sides; only the conditional expression chooses.
- A variable is read by the operator it is an operand of, behind the calls in the
  operands to its right: `gk + f()` reads what `f` leaves in `gk`
  (`ExpressionOrder.GlobalReadLate`). The order of reading is kept for all calls with
  given effects if and only if no call may write a variable to its left in the same
  argument list: `ExpressionOrder.LeftToRightExactly`.
- An internal array descriptor right after a scalar, as in `k[k]`, makes the whole
  argument string malformed, although the documentation of `split_args` says that
  internal descriptors are accepted: `TypeLists.MixedForms`.
- An array of a struct type with a name of one letter turns into an array of a
  primitive type on the way back: `TypeForms.BackExactly`.

## Model

| member | source | states |
|---|---|---|
| DispatchInvariant.StepKeeps | Engine/cs_new_dispatch.c:341-521 | every atomic step of every thread, spurious CAS failures included, keeps the invariant: each node in one place, each running task with one owner, prerequisites done, claims seen by a scan stay claimed |
| DispatchInvariant.PushKeeps | Engine/cs_new_dispatch.c:406-425 | hanging a node on the open list of another prerequisite moves it from the hands of the thread to that list and keeps the invariant |
| DispatchInvariant.SwapKeeps | Engine/cs_new_dispatch.c:427-446 | closing a finished task's list hands all its watchers to the closing thread and keeps the invariant |
| DispatchSafety.DependencySafety | Engine/cs_new_dispatch.c:449-518 | over every run: a task that is no longer WAITING, or that was forwarded to a thread, has only DONE prerequisites, even when they finish between the scans |
| DispatchSafety.NoLostWakeup | Engine/cs_new_dispatch.c:406-521 | over every run: the watch node of a WAITING task is in exactly one place, once - an open list of one of its prerequisites or the hands of one thread; the node of any other task is nowhere |
| DispatchSafety.ExactlyOnce | Engine/cs_new_dispatch.c:341-376 | over every run: at most one move starts a task, and that move puts its own thread to work on it and nobody else |
| DispatchSafety.OneWorker | Top/csound_perf.c:76-177 | over every run: a task is INPROGRESS if and only if some thread is in its body, and then exactly one is |
| DispatchSafety.InvalidMeansClaimed | Engine/cs_new_dispatch.c:360-400 | with a strong CAS, INVALID is returned only when every task is claimed, although the scan is not atomic |
| WeakClaims.InvalidIsTrustedIffStrong | Engine/cs_new_dispatch.c:323-339 | for any graph with a task that has no edges: some run tells a thread INVALID while a task is unclaimed if and only if the CAS may fail spuriously, as the weak form asked for here may |
| DispatchProgress.BusyStep | Engine/cs_new_dispatch.c:341-521 | each step of a thread with work in hand lowers a measure of task statuses, nodes in flight and local progress |
| DispatchProgress.IdleStep | Engine/cs_new_dispatch.c:341-401 | a step of a thread looking for work starts a task or leaves the shared state and the measure alone |
| DispatchProgress.SomethingAvailable | Engine/cs_new_dispatch.c:341-401 | if all threads look for work and a task is not DONE, some task is AVAILABLE: waiting threads cannot deadlock |
| DispatchProgress.FairRunsFinish | Top/csound_perf.c:76-177 | under a strong CAS every fair infinite run finishes every task, and they stay finished |
| DispatchStops.FairRunsStop | Top/csound_perf.c:76-177 | under a strong CAS every fair infinite run comes to a point from which all tasks are done and every thread has left the loop |
| DispatchHistory.ScanAnswers | Engine/cs_new_dispatch.c:341-401 | over every run, told from the statuses a thread has read: WAIT and INVALID come after every task was read and a claim tried and lost for each read as AVAILABLE; it is WAIT if and only if one was read as WAITING; a claim is made only on a task read as AVAILABLE |
| DispatchHistory.SearchOrder | Engine/cs_new_dispatch.c:449-508 | over every run, a watcher is hung in the first pass only on a prerequisite read as WAITING, in the second on one read as unfinished; all lists that come first in that order were tried and found closed; there is a second pass only after a full first one that read a prerequisite as AVAILABLE or INPROGRESS |
| DispatchHistory.ForwardsFirst | Engine/cs_new_dispatch.c:500-521 | over every run, the first watcher a thread finds no list for is forwarded: it stays WAITING and is the one the thread holds until it takes it; every later one is made AVAILABLE |
| DispatchHistory.TakesForwarded | Engine/cs_new_dispatch.c:341-357 | a thread that asks for a task goes to work on the one forwarded to it, and scans if there is none |
| DispatchHistory.StartsSpread | Engine/cs_new_dispatch.c:346-346 | scans start at the whole part of index / threads of the way through the tasks |
| DispatchPointers.LockStep | Engine/cs_new_dispatch.c:341-521 | one step on head pointers and next fields is one step on lists: a pointer CAS succeeds exactly when the list is unchanged, so a reused node is no ABA hazard |
| DispatchPointers.RunsRefine | Engine/cs_new_dispatch.c:341-521 | every run on pointers represents the same run on lists and never follows a null pointer or the sentinel |
| DispatchPointers.PointerRunsAreSafe | Engine/cs_new_dispatch.c:404-521 | dependency safety, the meaning of a closed list, and the trust in INVALID, read off the linked structure |
| DagBuild.RowStep | Engine/cs_new_dispatch.c:252-281 | one comparison extends the dependency row of the later instance by exactly the edge it decides |
| DagBuild.TurnKeeps | Engine/cs_new_dispatch.c:248-284 | one comparison keeps rows, statuses, list heads and next pointers what they should be for the pairs compared so far |
| DagBuild.AllCompared | Engine/cs_new_dispatch.c:235-286 | after all pairs the rows are exactly the edges and every list holds the tasks whose first prerequisite it belongs to, latest first |
| DagBuild.HasEdge | Engine/cs_new_dispatch.c:248-266 | the chain of set tests, made on the linked lists of names, decides whether the later instance must wait: direct output, or a variable one may change and the other touches, unless all that is known is that both read and write it |
| DagBuild.Dag.CompareWithLater | Engine/cs_new_dispatch.c:235-284 | the inner loop for one instance, with the tests made on the lists and the vectors changed in place |
| DagBuild.Dag.Build | Engine/cs_new_dispatch.c:197-287 | a task waits for an earlier one if and only if it must by their sets, no edge is superfluous, and the vectors are a start state; dag_changed is cleared |
| DagBuild.Dag.RestoreTask | Engine/cs_new_dispatch.c:297-316 | one turn of the re-initialisation restores one more task |
| DagBuild.Dag.Reinit | Engine/cs_new_dispatch.c:289-317 | from whatever a run left, re-initialisation yields a start state with the same rows and marks the unused tasks DONE |
| DagBuild.StartIsUnique | Engine/cs_new_dispatch.c:289-317 | start states for the same rows agree in statuses, heads and every next pointer in use, so Reinit restores what Build made, in the same list order |
| DagBuild.StartsRun | Engine/cs_new_dispatch.c:197-317 | a start state is where the runs of the dispatcher begin, so all results above hold from Build and from Reinit |
| ParSet.ParSet.Exists | Engine/cs_par_base.c:336-348 | the list walk decides membership |
| ParSet.ParSet.Add | Engine/cs_par_base.c:270-298 | adding appends a name unless it is there, and keeps list, tail, count and cache consistent |
| ParSet.Union | Engine/cs_par_base.c:419-461 | the union built in fresh memory is the first set followed by what only the second has |
| ParSet.Intersection | Engine/cs_par_base.c:465-502 | the intersection built in fresh memory keeps what is in both |
| ParSet.AllAddedIsUnion | Engine/cs_par_base.c:419-461 | as sets of names that is the union, without repeats |
| ParSet.CommonIsIntersection | Engine/cs_par_base.c:465-502 | as sets of names that is the intersection, without repeats |
| ParSet.DagIntersect | Engine/cs_new_dispatch.c:167-184 | the test used for edges is nonzero if and only if the two sets of names meet |
| SerialEquivalence.EdgeExactly | Engine/cs_new_dispatch.c:252-266 | the tests make an edge if and only if there is direct output or a variable in conflict that not both instances only read and write |
| SerialEquivalence.ConflictsOrdered | Engine/cs_new_dispatch.c:235-286 | of two instances one of which may change what the other touches, the earlier reaches the later along edges |
| SerialEquivalence.SeesSerial | Engine/cs_new_dispatch.c:235-286 | a task that may start or is running sees, on all it may touch, the memory of the serial run |
| SerialEquivalence.NextKeeps | Engine/cs_new_dispatch.c:341-521 | every move, action of a body or step of the dispatcher, keeps the memory what the serial run makes it |
| SerialEquivalence.ParallelIsSerial | Engine/cs_new_dispatch.c:197-287 | every complete interleaving the dispatcher allows ends in the memory of running the chain in order |
| SerialExact.UncoveredLoses | Engine/cs_new_dispatch.c:252-266 | two instances that read and write a common variable and are not ordered: a complete run that ends otherwise than the serial one |
| SerialExact.SerialExactlyWhenCovered | Engine/cs_new_dispatch.c:252-266 | with two or more threads the graph keeps all bodies with these sets serial if and only if every such pair is ordered by other edges |
| CowSteps.StepKeeps | Engine/csound_standard_types.c:571-1334 | every step of copy, prepare-write, write and free by any thread keeps ownership of buffers, counts, sizes and contents in order |
| CowSteps.CloneKeeps | Engine/csound_standard_types.c:434-464 | copying an element outside the lock reads a buffer its thread still holds |
| CowSteps.InstallKeeps | Engine/csound_standard_types.c:1143-1246 | turning an owned array into the first sharer of a new sidecar |
| CowSteps.TakeOverKeeps | Engine/csound_standard_types.c:1248-1334 | the last holder takes the buffer back and the sidecar goes |
| CowSteps.DetachKeeps | Engine/csound_standard_types.c:1278-1333 | installing a finished clone lets go of the old sidecar once |
| CowSteps.ReleaseKeeps | Engine/csound_standard_types.c:1092-1141 | freeing an array lets go of exactly what it held |
| CowRuns.NeverFaults | Engine/csound_standard_types.c:571-1334 | no schedule touches freed memory or frees twice |
| CowOverlap.SafeExactlyApart | Engine/csound_standard_types.c:1248-1334 | if writes to one array may begin while others to it are under way, some schedule reads a freed buffer; if not, none does |
| CowRuns.ReadsAsDeepCopies | Engine/csound_standard_types.c:1143-1334 | over every run each array not being changed reads exactly as if all copies were deep, the fallback for write-owned sources included |
| CowRuns.DeepMovesByOperations | Engine/csound_standard_types.c:571-1334 | the deep-copy model changes only by whole operations, each at one step |
| CowRuns.EffectOnce | Engine/csound_standard_types.c:571-1334 | an operation that ended took effect exactly once if it succeeded and not at all if it failed |
| CowRuns.RefsAreHolders | Engine/csound_standard_types.c:1143-1334 | the count of a sidecar is the number of arrays on it and of threads about to put an array on it; it is zero only in the hands of the destroyer |
| CowRuns.FreedUnread | Engine/csound_standard_types.c:393-405 | a buffer is freed only when no array shows it and no thread copies from it |
| CowRuns.SidecarEnds | Engine/csound_standard_types.c:1278-1333 | a sidecar ends either with a sole holder taking its buffer over or, at count zero, with its buffer |
| CowRuns.NothingLost | Engine/csound_standard_types.c:1092-1141 | with nothing under way every live buffer is shown by an array: no leak |
| CowRuns.OthersKeepTheirValue | Engine/csound_standard_types.c:1248-1334 | no step shows through an array other than the one its operation changes |
| CowAdmission.FailsExactly | Engine/csound_standard_types.c:571-1301 | an operation fails if and only if the count of the source is at its limit, or it may not allocate and its array shares its buffer with another holder or has no room for the value |
| CowAdmission.AdmittedStays | Engine/csound_standard_types.c:1262-1274 | over every run: once a write that may not allocate has succeeded on an array with storage, the array stays marked until that storage is let go, so nobody shares it |
| CowAdmission.NeverShutOut | Engine/csound_standard_types.c:1262-1301 | over every run: until then no write to the array fails, and nothing else on it fails for sharing |
| CowAdmission.LetGoFor | Engine/csound_standard_types.c:601-731 | its storage is let go only by freeing it or by a copy into it that shares or may allocate |
| CowAdmission.MarkedOnlyBy | Engine/csound_standard_types.c:1262-1296 | the marker is set only by operations that may not allocate |
| CowAdmission.NoNeedlessWork | Engine/csound_standard_types.c:1160-1302 | a buffer is cloned only if another holder shares it, exchanged only if the value has no room in it, and copied in place of being shared only if a writer was admitted to it |
| CowAdmission.InstalledOverItsSource | Engine/csound_standard_types.c:1320-1331 | whatever else works on the array, a clone is installed if and only if its storage is still there; otherwise it is freed and the operation fails |
| CowAdmission.OntoItself | Engine/csound_standard_types.c:630-635 | copying one of two views of a value onto the other succeeds and changes nothing |
| CowAdmission.CountGrouped | include/arrays.h:143-177 | the number of elements is the product over the dimensions, none for no dimensions |
| Resolved.Replace | Engine/csound_orc_optimize.c:1329-1354 | exchanging a stretch of known statements for one of the same effect keeps both passes of the whole scope, jumps of unknown statements included |
| Resolved.OpcodesAreFair | Engine/csound_orc_optimize.c:1329-1354 | opcodes that compute results from their inputs and from all names that are not generated, change any such name and jump accordingly, are fair: the hypothesis of the pass results admits them |
| Resolved.ReadersAreFair | Engine/csound_orc_optimize.c:1329-1354 | a fair opcode can hand on a generated temporary it names as its input |
| Resolved.EquivalentTrans | Engine/csound_orc_optimize.c:1329-1354 | equivalences compose, with the union of the removed temporaries |
| Resolved.SameSession | Engine/csound_orc_optimize.c:1329-1354 | equivalent scopes show the same values after the init pass and after each performance pass |
| CopyRemoval.CopyEffect | Engine/csound_orc_optimize.c:74-122 | computing into the destination at once has the same effect, also for x = x + 1 |
| CopyRemoval.RemoveScalarCopies | Engine/csound_orc_optimize.c:74-122 | the pass keeps the meaning of the scope; a temporary goes if and only if the scope has a pair for it, spelled out apart from the guard; none is left in the output |
| AudioFusion.FusedEffect | Engine/csound_orc_optimize.c:190-250 | multiply then add is the fused multiply-add |
| AudioFusion.FuseAudioMulAdd | Engine/csound_orc_optimize.c:190-250 | the pass keeps the meaning of the scope; a temporary goes if and only if the scope has a pair for it, spelled out apart from the guard; none is left in the output |
| LiteralFolding.TallyRight | Engine/csound_orc_optimize.c:427-449 | the recorded uses of a temporary are its true count, first and last place and whether anything lies between |
| LiteralFolding.FoldableExactly | Engine/csound_orc_optimize.c:470-551 | a record passes the tests if and only if there is one single later use in the same straight stretch |
| LiteralFolding.FoldEffect | Engine/csound_orc_optimize.c:470-551 | putting the literal in place of the use has the same effect across the statements between |
| LiteralFolding.FoldStep | Engine/csound_orc_optimize.c:470-551 | one fold keeps equivalence with the scope as it was first, so folds chain although the counts are not taken again |
| LiteralFolding.FoldScalarLiterals | Engine/csound_orc_optimize.c:470-551 | the pass keeps the meaning of the scope, chained folds included, and every statement it keeps could not go when it was reached: no operation on literals with one later use in its stretch, or none the compiler can compute |
| ScalarCse.StillCurrent | Engine/csound_orc_optimize.c:320-393 | a surviving table entry equals its operation on the current operand values |
| ScalarCse.CurrentExactly | Engine/csound_orc_optimize.c:320-393 | that holds right after an operation, for all operators and stores, if and only if it does not overwrite an operand |
| ScalarCse.LookUp | Engine/csound_orc_optimize.c:345-372 | the walk over the 64 slots drops exactly the entries the statement overwrites and finds a match if there is one |
| ScalarCse.ReuseEffect | Engine/csound_orc_optimize.c:373-388 | removing the repetition and renaming the operand of its consumer has the same effect |
| ScalarCse.ReuseExactly | Engine/csound_orc_optimize.c:320-393 | for a match that passes the tests, the rewritten stretch has the same effect for all operators and stores if and only if the first operation does not overwrite its own operand |
| ScalarCse.ReuseScalarExpressions | Engine/csound_orc_optimize.c:320-393 | the pass keeps the meaning of the scope in both passes when no generated result overwrites its own operand; turn by turn it drops a statement if and only if it does one of the last 64 kept operations again in the program as it is by then; the scope comes back as it was if and only if there is none |
| ScalarCse.FoundExactly | Engine/csound_orc_optimize.c:345-388 | the walk over the round-robin table finds an operation like the present one if and only if there is one in reach |
| ScalarCse.SlotsKept | Engine/csound_orc_optimize.c:345-391 | one more statement leaves in the table exactly the operations in reach, each in its slot |
| ScalarCse.SelfReadBreaksReuse | Engine/csound_orc_optimize.c:320-393 | a scope with such a statement that passes every test and changes its meaning |
| CseLimits.OneRunIsNotEnough | Engine/csound_orc_optimize.c:320-393 | a scope whose result under the pass still has a repetition: it showed only after a later statement had gone |
| Optimizer.OptimizeScope | Engine/csound_orc_optimize.c:1329-1354 | any selection of the four passes: every name except removed temporaries has the same value after each pass of execution; the chosen passes run one after the other in this order, each missing nothing |
| ControlLowering.LowerNumbered | Engine/csound_orc_expressions.c:2032-2184 | labels and loop counters are numbered without repeats within the range the counter moved over |
| ControlLowering.RunsIf | Engine/csound_orc_expressions.c:2032-2184 | the code of an if chain runs as the chain does |
| ControlLowering.RunsLoop | Engine/csound_orc_expressions.c:2375-2461 | the code of while and until runs as the loop does, with break and continue |
| ControlLowering.RunsFor | Engine/csound_orc_expressions.c:2463-2665 | the code of a for over a non-empty array runs as the loop does, with break and continue |
| ControlLowering.NothingEscapes | Engine/csound_orc_semantics.c:4500-4560 | outside loops no break or continue is left over |
| ControlLowering.LoweredEndsAlike | Engine/csound_orc_expressions.c:2032-2665 | when the structured program ends the code ends in the same store |
| ControlLowering.LoweredEndsOnlyThen | Engine/csound_orc_expressions.c:2032-2665 | when the code ends so did the structured program, in the same store, unless a for met an empty array |
| ControlLowering.DivergesTogether | Engine/csound_orc_expressions.c:2032-2665 | the code runs forever exactly when the structured program does |
| LoweringLimits.ZeroCounterFallsThrough | Engine/csound_orc_expressions.c:2137-2150 | with the label counter at zero an if-else runs its first branch on into the else |
| LoweringLimits.FaithfulExactly | Engine/csound_orc_expressions.c:2137-2150 | lowering keeps the outcome of every program if and only if the counter starts above zero |
| LoweringLimits.EmptyForRunsBody | Engine/csound_orc_expressions.c:2463-2665 | a for over an empty array runs its body once |
| LoweringLimits.LoopsRightExactly | Engine/csound_orc_expressions.c:2463-2665 | whatever the loop, its body and its index variable: the lowered for runs the body once for each value if and only if there is a value |
| ExpressionFlattening.FlattenLabels | Engine/csound_orc_expressions.c:374-473 | the labels of a tree are its own |
| ExpressionFlattening.AllPlainExactly | Engine/csound_orc_expressions.c:502-560 | the trees meant are all those of literals and variables |
| ExpressionFlattening.CondCorrect | Engine/csound_orc_expressions.c:374-473 | a conditional expression runs only the chosen arm and leaves its value, also when calls change variables |
| ExpressionFlattening.FlattenCorrect | Engine/csound_orc_expressions.c:561-903 | the code of a tree makes the calls of the tree in order, with variables read at the call that uses them, leaves its value and the store those calls leave, and touches only fresh temporaries |
| ExpressionFlattening.AllCorrect | Engine/csound_orc_expressions.c:502-560 | the same for an argument list, from left to right: values of calls are held in temporaries, variables are left to be read by the consumer |
| ExpressionFlattening.StatementCorrect | Engine/csound_orc_expressions.c:1788-2030 | the emitted code followed by the rewritten statement is the statement on the values of the trees, variables read last |
| ExpressionOrder.AgreeAll | Engine/csound_orc_expressions.c:502-560 | when no call may write a variable to its left in an argument list, that is the value, the store and the calls of reading from left to right |
| ExpressionOrder.LeftToRightExactly | Engine/csound_orc_expressions.c:502-560 | for given write effects: the emitted code evaluates from left to right for all calls with these effects if and only if no call may write a variable to its left in the same argument list |
| ExpressionOrder.GlobalReadLate | Engine/csound_orc_expressions.c:502-560 | gk + f(): the code adds what f leaves in gk, reading in order adds what was there before; such an expression is ruled out exactly when f may write gk |
| UdoRates.LeastSolution | Engine/csound_orc_compile.c:175-285 | flags that are sound, seeded and closed under calls are the least solution |
| UdoRates.HasIntrinsicPerf | Engine/csound_orc_compile.c:118-142 | decides performance work of a definition's own |
| UdoRates.CallsPerfDefinition | Engine/csound_orc_compile.c:144-167 | decides whether a call leads to an entry that performs |
| UdoRates.Seed | Engine/csound_orc_compile.c:182-196 | clearing and seeding leaves exactly the intrinsic flags, whatever they were |
| UdoRates.ScanOnce | Engine/csound_orc_compile.c:197-212 | one scan sets only flags that are due; an unchanged scan means the flags are closed under calls |
| UdoRates.CollectEntries | Engine/csound_orc_compile.c:214-230 | sorting and dropping repeats leaves each entry once |
| UdoRates.BuildEdges | Engine/csound_orc_compile.c:234-267 | every call of a definition that is not yet known to perform has an edge from callee to caller, and every edge is such a call |
| UdoRates.VisitCallers | Engine/csound_orc_compile.c:268-281 | visiting the callers of a node enqueues each newly set node once and never overruns the count places of the queue |
| UdoRates.ClassifyUdoRates | Engine/csound_orc_compile.c:175-285 | an entry ends performance-rate if and only if a definition sharing it has such work or reaches it through calls, whatever the order or the previous flags |
| UdoRates.SpecializeInitGetters | Engine/csound_orc_compile.c:2320-2424 | the getters that are chosen, and nothing else, are exchanged for init-only ones; it reports a change if and only if one was chosen, and each change lowers the number of performance-rate getters |
| UdoRates.ClassifyAndSpecialize | Engine/csound_orc_compile.c:2701-2704 | the loop of the two ends after rounds in each of which the flags are right for the code and exactly the chosen getters are exchanged; none is left to choose |
| InitGetters.ChooseGetters | Engine/csound_orc_compile.c:2320-2424 | the two walks with their tables choose a getter if and only if its result is there at init time, is written by it alone, and is read only by opcodes that take it at init time |
| TypeContainment.PassesOrNot | Engine/csound_orc_structs.c:84-111 | a chain of members either avoids a type or a chain no longer starts at it |
| TypeContainment.NothingThere | Engine/csound_orc_structs.c:84-111 | if no member leads on without coming back, nothing leads on at all: cutting at types on the path loses nothing |
| TypeContainment.VariableContainsType | Engine/csound_orc_structs.c:72-82 | with some types on the path: true if and only if a chain avoiding them reaches the target |
| TypeContainment.TypeContainsType | Engine/csound_orc_structs.c:84-111 | the same for a type; the search ends on recursive types |
| TypeContainment.ContainsType | Engine/csound_orc_structs.c:113-118 | true if and only if some chain of members reaches the target |
| TypeStrings.NextArgType | Engine/csound_orc_compile.c:494-530 | reads a descriptor with its dimensions and base, or fails when no descriptor stands there that takes every pair after it |
| TypeLists.OneReading | Engine/csound_orc_compile.c:494-530 | an argument string is read in at most one way |
| TypeLists.ArgsRequired | Engine/csound_orc_compile.c:532-544 | the number of types of a well-formed string and -1 for any other, or for more than an int can count |
| TypeLists.SplitArgs | Engine/csound_orc_compile.c:566-592 | exactly the internal forms, or nothing for a string that is not well formed |
| TypeLists.MixedForms | Engine/csound_orc_compile.c:494-592 | both forms mixed: read back as the same types if no internal array follows a descriptor that would take its mark, and refused whole otherwise |
| TypeLists.AcceptedOnly | Engine/csound_orc_compile.c:494-544 | a string is accepted if and only if it is such a text |
| TypeLists.ExternalsReadBack | Engine/csound_orc_compile.c:494-592 | any list of types in external form is read back |
| TypeLists.InternalsReadBack | Engine/csound_orc_compile.c:494-592 | a list in internal form is read back if and only if no array follows a scalar |
| TypeForms.RemoveTypeQuoting | Engine/csound_orc_expressions.c:112-123 | drops exactly the quote characters |
| TypeForms.ConvertInternalToExternal | Engine/csound_orc_semantics.c:2101-2201 | gives the external form for the internal one, for the bare one and for the external one itself, names of one letter in arrays excepted, and ThereAndBack for any internal form |
| TypeForms.BackExactly | Engine/csound_orc_semantics.c:2101-2201 | ThereAndBack, which is what the conversion makes of an internal form, is the type itself if and only if that is not an array with a name of one letter |
| TypeForms.ConvertExternalToInternal | Engine/csound_orc_semantics.c:2204-2223 | internal form for arrays of one-character types; all else unchanged |
| ArgMatching.CheckInArg | Engine/csound_orc_semantics.c:1240-1312 | which found type fits which required one, in one description for the three tables |
| ArgMatching.CheckArrayArgIn | Engine/csound_orc_semantics.c:1203-1219 | arrays fit whatever their rank when the element types do |
| ArgMatching.ScalarFitsExactly | Engine/csound_orc_semantics.c:1240-1312 | a one-character type fits a code if and only if it is the same, or the code takes anything, or k stands for B, or one of the three tables says so |
| ArgMatching.ArrayFitsExactly | Engine/csound_orc_semantics.c:1203-1219 | internal array forms fit if and only if the element types are the same, or i for k, or the required one takes anything |
| ArgMatching.ArrayOrNot | Engine/csound_orc_semantics.c:1274-1279 | an array fits a type that is no array, or the other way, only if that takes anything |
| ArgMatching.QuotesDoNotCount | Engine/csound_orc_semantics.c:1224-1262 | a named type fits with or without its quotes, and quoted names are compared as names |
| ArgMatching.CodesAsListed | Engine/csound_orc_semantics.c:1178-1184 | the codes that may be left out and the variadic ones, kept as strings and as tables, are the same but for ? and * |
| ArgMatching.OmittedExactly | Engine/csound_orc_semantics.c:1316-1448 | without a variadic code a call fits if and only if each argument given is accepted by its own code and all codes left over are optional ones: a concrete type is never left out |
| ArgMatching.VariadicExactly | Engine/csound_orc_semantics.c:1316-1448 | with one: its arguments are held against it, and what may be left out behind it |
| ArgMatching.CheckScalarInArgs | Engine/csound_orc_semantics.c:1316-1353 | the matcher on characters answers as the description of fitting lists says |
| ArgMatching.MatchLists | Engine/csound_orc_semantics.c:1390-1447 | so does the one on split descriptors |
| ArgMatching.CheckSplitInArgs | Engine/csound_orc_semantics.c:1373-1448 | the general matcher with its answers for malformed, empty and overlong lists |
| ArgMatching.FastAsGeneral | Engine/csound_orc_semantics.c:1316-1448 | on strings without brackets, quotes and spaces both accept alike, and the codes differ exactly for too many arguments against none |
| ArgMatching.CheckInArgs | Engine/csound_orc_semantics.c:1355-1448 | which matcher is used does not show in what is accepted |
| HashTable.Replaced | Engine/csound_data_structures.c:203-209 | a new value for a key that is there keeps the table a map |
| HashTable.Added | Engine/csound_data_structures.c:211-236 | a new item at the end of its chain is one more entry of the map |
| HashTable.Removed | Engine/csound_data_structures.c:252-280 | unlinking an item takes exactly its key out of the map |
| HashTable.AllBack | Engine/csound_data_structures.c:119-130 | when every bucket is put back the map is the old one |
| HashTable.Table.Get | Engine/csound_data_structures.c:145-165 | lookup in the map |
| HashTable.Table.PutNoKeyCopy | Engine/csound_data_structures.c:194-238 | update of the map; the given key is kept if and only if it is new |
| HashTable.Table.CheckResize | Engine/csound_data_structures.c:107-134 | a resize doubles the table, keeps the map and never starts another resize |
| HashTable.Table.Put | Engine/csound_data_structures.c:240-244 | update of the map, nothing for a missing key |
| HashTable.Table.Remove | Engine/csound_data_structures.c:252-280 | removal from the map |
| HashTable.Table.Merge | Engine/csound_data_structures.c:314-337 | the target becomes target overridden by source |

## Left out

- Thread creation, barriers, the mutex and spinlock implementations and memory orders: each atomic operation or lock section is one step.
- How the read and write sets of instruments are collected: that they are complete is assumed (`Respects`), as is that a body does the same on memories that agree on what it may touch.
- DagBuild.Dag.Build: the instance chain, the dependency rows and the instance map are sequences, not linked records; vectors grow as the source grows them; the read and write sets are lists of `ParSet`, compared as dag_intersect does.
- ParSet.ParSet.Add: names are compared as strings, the only equality the dispatcher uses; csp_set_remove is not part of this model.
- DispatchStops.FairRunsStop: is for a strong compare-and-swap, as DispatchProgress.FairRunsFinish is; with the weak one it is false for any graph with an isolated task (`WeakClaims.InvalidIsTrustedIffStrong`).
- WeakClaims.InvalidIsTrustedIffStrong: the failing run is for graphs with a task that has no edges; for others it depends on the graph, since in a chain every instance but the first is forwarded and never offered. That a strong form can be trusted is proved for all graphs (`DispatchSafety.InvalidMeansClaimed`).
- CowRuns.ReadsAsDeepCopies: all arrays hold elements of one structured type, elements are opaque, allocation succeeds, and raw views without storage are excluded.
- CowArrays.MayBegin: operations on one array do not overlap, apart from several copies from one source. That is an assumption on callers: the code has no such guard, and under it the second look at `array->storage` (Engine/csound_standard_types.c:1320) always finds what the first one found. That overlapping writes break memory safety is shown (`CowOverlap.SafeExactlyApart`); other overlaps are not treated.
- CowRuns.NeverFaults: holds under that assumption, as CowRuns.ReadsAsDeepCopies and CowSteps.StepKeeps do.
- CowArrays.Step: a step system on values in place of objects, since several threads act on the same arrays; resizing is modelled for empty arrays only, and layout checks that always hold for one element type are left out.
- Optimizer.OptimizeScope: a scope is a sequence of statements in place of a linked tree; legacy folding and the pruning of unused variables are left out.
- LiteralFolding.FoldScalarLiterals: the arithmetic of the compiler and the spelling of its result are a parameter that is right when it answers (`GoodFolder`).
- ScalarCse.ReuseScalarExpressions: needs scopes in which no generated result is computed from itself. The condition is exact for each table entry (`ScalarCse.CurrentExactly`) and for each reuse (`ScalarCse.ReuseExactly`); for whole scopes it is sufficient only, since later statements can hide a difference.
- ControlFlow.Lower: a function from trees to instructions in place of rewiring tree nodes; one rate at a time, conditions are flattened beforehand, the counter does not wrap.
- ControlFlow.RunOne: a for over an empty array has the separate outcome EmptyFor, since the code has no loop over nothing; what the code does then is `LoweringLimits.EmptyForRunsBody`.
- expand_switch_statement: its empty last case after default is a known oddity, its other cases are if chains.
- ExpressionFlattening.Flatten: temporaries are numbered in one traversal, where the source numbers the arms of a conditional later; names, rates and opcode resolution are left out, and so is the collapse of the last assignment. A call may change variables, not temporaries, which no program can name.
- UdoRates.SpecializeInitGetters: which getters are chosen is a parameter; the choice itself is `InitGetters.ChooseGetters`, for one instrument, with the entries of the opcodes reduced to what it asks of them. A replacement has no performance work.
- UdoRates.CollectEntries: qsort and bsearch on entries are a list without repeats and a lookup in it.
- TypeContainment.ContainsType: member lists are sequences and types are numbers.
- TypeStrings.NextArgType: a string is the characters before the terminator; the limit of size_t on allocations is left out.
- TypeForms.ConvertInternalToExternal: is for texts that are some form of a type, as the source asks for valid specifiers.
- ArgMatching.CheckInArgs: required strings longer than an int can count are only described through `ArgMatching.CheckScalarInArgs` and `ArgMatching.CheckSplitInArgs`; output argument matching is left out.
- HashTable.Table.PutNoKeyCopy: keys are strings in place of owned memory, so the freeing of a second copy is not modelled; the results hold for any hash function, and characters are taken as unsigned.
- HashTable.Table.Merge: the source table is not used afterwards: its buckets are emptied but its count is not reset.
- Environment and configuration variables, core files, score sorting and extraction, function-table generators and opcode callbacks: plumbing, easy list handling or signal processing.
