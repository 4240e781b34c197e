# Verification of the xlflow static analyzer

A Dafny model of four engines inside `internal/analyze`, the VBA static analyzer of xlflow, with
proofs of what they promise.  Text recognition is abstracted into small statement datatypes; the
worklists, maps, flags, frame stacks, keys and goroutines are kept as they are.

- **Application-state leaks (VBA203).**  A worklist carries, per program point, the assignments that
  may still be in an `Application` property and the variables that may hold its saved value.  The
  states share maps by copy-on-write flags.  `ApplicationState` holds the values and the join,
  `ApplicationStateHeap` the records that share maps, `ApplicationStateFixpoint` and
  `ApplicationStateSolver` the worklist, `ApplicationStateSoundness` a machine with normal and
  exceptional edges against which the analysis is sound, `ApplicationStateLimits` the two ways out of
  that scope, `ApplicationStateRestores` what copies and restores achieve along a path,
  `ApplicationStateExact` where the report is exact, and `LeakIndex` the index over the results.
- **Bounded scheduling.**  File workers and a procedure pool share one semaphore; a file worker
  yields its permit while its batches run.  `Batches` cuts the procedures, `Scheduler` is the step
  relation, `SchedulerInvariant` what every step keeps, `SchedulerRuns` the statements about whole
  runs, `SchedulerCauses` why they end as they do, `PlannedRuns` how many threads a request allows,
  `ProcedureMerge` the agreement of parallel and serial findings, and `ScheduledFindings` the
  way from a run to those findings.
- **`On Error Resume Next` scopes (VBA214).**  A breadth-first search over states that are recognised
  by a text key (`ResumeNext`, `ResumeNextSearch`, `Text`), the reasons its outcomes are reported for
  (`ResumeNextReasons`), and a frame stack that counts operations
  across mutually exclusive `#If` branches (`ConditionalCompilation`, `ConditionalCount`,
  `ResumeNextCount`).
- **Array analyses.**  Several lanes on one queue (`LaneTransfer`, `LaneSolver`, `LaneWalk`,
  `LaneLimits`) over the states of `ArrayState`, summaries of mutually recursive procedures (`ByRefSummaries`), recursive
  possibility queries (`ByRefReach`), two graph searches (`CfgSearch`, `GoSubBody`) and the
  aggregation of caller evidence (`CallerEvidence`).

`Wrappers`, `Sets` and `Sums` are helpers.  `dafny verify dfyconfig.toml` checks the whole project.

## Where the code and its promises part

- The transfer of VBA203 is not monotone, so the proof of termination counts accumulated facts and
  the proof of soundness relates flows to machine states.  Two branches of the transfer are unsound,
  and the guards under which they are unsound are given exactly.  A fault on a write from a saved
  variable loses origins if the snapshot is proven, the write is not inert and something is dirty
  that was not dirty at the capture; or if the snapshot is unproven and a guard matches and the same
  holds; or if no guard matches and the snapshot covers something dirty
  (`FaultIsSafeIffItKeepsOrigins`).  A restore accepted by its guard is unsound if the restoring
  assignment was not dirty at the capture and is now clean or covered (`GuardIsSafeIffWriterStays`).
  Walks without either are in scope, and so is every walk without a fault on a write from a variable
  in a procedure without guarded captures (`PlainLeakIsReported`).
- A fault on a restoring assignment is the documented cleanup boundary
  (docs/specs/vba-effect-analysis.md:247-253, docs/specs/cli-contract.md:1752-1754); the example
  `FaultingRestoreIsMissed` shows what it gives up.
- docs/specs/cli-contract.md:1750-1752 says that a restore which may use an overwritten saved value
  remains diagnostic.  The code checks that the guards' own bindings are stable, not that the saved
  variable is unchanged: `GuardedOverwriteIsMissed` is a procedure it accepts.  The model follows the
  code.
- internal/analyze/array_safety_cfg.go:401-403 calls the shared queue safe.  That holds if and only if
  the state merge absorbs what it has merged before, on the states the lanes can be in
  (`IndependentIffAbsorbing`).  Two components of the real merge do not absorb in general, the source
  of a conditional allocation (internal/analyze/array_safety_state.go:1267-1275) and the source of an
  allocation flag (1276-1284): a third merge can bring back a source that two different ones had
  cancelled (`CancelledSourceReturns`), or that was forgotten because one side had no entry for the
  variable (1217-1228, `ForgottenSourceReturns`).  `IndependentIffHarmless` says exactly which states
  are free of this.  They include all states over one set of variables with at most one condition
  and one flag per variable (`OneSourceAbsorbs`).  The initial states take their variables from the
  declarations (1395-1436) and sources are attached by visits to a guarded `ReDim`
  (internal/analyze/array_safety_vba227.go:3225-3263); that every callback keeps to one set of
  variables and to one source for each is a premise of these theorems (`StaysIn`), not a result.
- The key of a Resume Next state is not injective on arbitrary texts (`SeparatorCollides`); it is on
  every state a search can meet, because targets are identifiers and groups are byte offsets.
- The number printer writes negative numbers as the empty text (`ItoaSeparates`); keys are exact
  because statement, block and parameter numbers are not negative.

## Model

| member | source | states |
|---|---|---|
| `ApplicationState.MergeIsUnionOfFacts` | internal/analyze/analyzer.go:5346-5409 | A merged flow holds a fact exactly when one of the two flows does, absent keys and the `Restores` coverage test included; so per variable and origin the join is a maximum on the chain clean, clean and restored, dirty and restored, dirty |
| `ApplicationState.FactsDetermineFlow` | internal/analyze/analyzer.go:5088-5105 | Two flows with the same facts are the same flow, so the facts are a faithful reading of the maps |
| `ApplicationState.MergeCommutative` | internal/analyze/analyzer.go:5346-5409 | The join is commutative on flows of any content |
| `ApplicationState.MergeAssociative` | internal/analyze/analyzer.go:5346-5409 | The join is associative |
| `ApplicationState.MergeAbsorbs` | internal/analyze/analyzer.go:5346-5431 | Merging changes nothing exactly when every incoming fact is already there; hence idempotent |
| `ApplicationState.MergeIsLeastUpperBound` | internal/analyze/analyzer.go:5346-5409 | The join is the least upper bound of an antisymmetric order |
| `ApplicationStateHeap.FlowRef.Clone` | internal/analyze/analyzer.go:5249-5276 | A fork shares every map, marks both sides as sharing and shows the same flow |
| `ApplicationStateHeap.FlowRef.EnsureDirty` | internal/analyze/analyzer.go:5278-5288 | A shared `Dirty` map is replaced by a fresh copy, an owned one is kept; the flow shown is unchanged |
| `ApplicationStateHeap.FlowRef.EnsureSaved` | internal/analyze/analyzer.go:5290-5300 | The same for the `Saved` map |
| `ApplicationStateHeap.FlowRef.MutableSavedSnapshot` | internal/analyze/analyzer.go:5302-5317 | A snapshot handed out for writing has private sets whenever snapshots may alias |
| `ApplicationStateHeap.FlowRef.MarkSnapshot` | internal/analyze/analyzer.go:5463-5474 | Adding a restore to one variable's snapshot leaves every aliased snapshot of other variables and other flows as it was |
| `ApplicationStateHeap.MarkOrigin` | internal/analyze/analyzer.go:5461-5479 | A new origin is marked in every proven snapshot, in place, with the effect of the value-level transfer |
| `ApplicationStateHeap.ApplyStatement` | internal/analyze/analyzer.go:5433-5504 | The in-place transfer of a statement on a private record equals the value-level transfer and writes no map another record can reach |
| `ApplicationStateHeap.ApplyExceptionalRestore` | internal/analyze/analyzer.go:5530-5555 | The same for a property write that faults |
| `ApplicationStateHeap.FlowAcrossEdge` | internal/analyze/analyzer.go:5180-5194 | An edge's out-state is a fresh record with the value-level result; nothing that existed before is modified, whatever maps are shared |
| `ApplicationStateHeap.MergeFlow` | internal/analyze/analyzer.go:5346-5431 | The copy-on-write merge yields the value-level join, modifies nothing that existed, and its changed flag is true exactly when the result differs from the current flow |
| `ApplicationStateFixpoint.StableIsExact` | internal/analyze/analyzer.go:5123-5151 | A stable table has an entry exactly for the reachable blocks, and merging any edge's out-state into its target changes nothing |
| `ApplicationStateFixpoint.Accumulates` | internal/analyze/analyzer.go:5138-5150 | Every merge that changes the table uses up one of finitely many facts, although the transfer itself is not monotone |
| `ApplicationStateFixpoint.OfferOrigin` | internal/analyze/analyzer.go:5152-5177 | The witness kept for an origin has the highest rank of all exits that can retain it; among equals the first edge wins |
| `ApplicationStateSolver.VisitBlock` | internal/analyze/analyzer.go:5129-5151 | Carrying one block's edges settles them, and either changes nothing or reduces what is pending |
| `ApplicationStateSolver.Solve` | internal/analyze/analyzer.go:5123-5151 | The worklist ends on every finite graph with a stable table that contains only flows derivable along edges and joins |
| `ApplicationStateSolver.ApplicationStateExitWitnesses` | internal/analyze/analyzer.go:5123-5178 | The reported witnesses are exactly those a stable table justifies: an origin is reported if and only if it is dirty on some edge into an exit |
| `ApplicationStateSoundness.ExecuteIsDescribed` | internal/analyze/analyzer.go:5433-5504 | If a flow describes a machine state, the transferred flow describes the state after the statement |
| `ApplicationStateSoundness.StepIsDescribed` | internal/analyze/analyzer.go:5180-5194 | The same along a normal or an exceptional edge |
| `ApplicationStateSoundness.WalkIsDescribed` | internal/analyze/analyzer.go:5123-5151 | Every in-scope walk from the entry is described by the in-state of the block it reaches |
| `ApplicationStateSoundness.LeakIsReported` | internal/analyze/analyzer.go:5116-5178 | Soundness relative to a stable table: if a walk on which every fault keeps its origins and every guard-accepted restore is honest ends in an exit with a value other than the entry value, some assignment that ran on it is reported |
| `ApplicationStateSoundness.PlainWalkIsInScope` | internal/analyze/analyzer.go:5116-5122 | If no capture of the procedure is guarded, every walk on which no write from a variable faults is in scope, whatever pairs of guards the procedure relates |
| `ApplicationStateSoundness.PlainLeakIsReported` | internal/analyze/analyzer.go:5116-5178 | Soundness over procedures: without guarded captures, every walk on which no write from a variable faults and which ends in an exit with a foreign value has a reported assignment; only the graph and the walk are restricted |
| `ApplicationStateSoundness.FaultIsSafeIffItKeepsOrigins` | internal/analyze/analyzer.go:5530-5555 | Taking a fault into account is unsound for some machine exactly when the statement writes the property from a saved variable and the restore it assumes drops a current origin: one not dirty at the capture (snapshot proven and write not inert, or unproven and accepted by a guard), or one the unproven snapshot covers (no guard matches) |
| `ApplicationStateSoundness.GuardIsSafeIffWriterStays` | internal/analyze/analyzer.go:5447-5460 | Accepting a guarded restore from an unproven variable is sound for every machine and input exactly when the restoring assignment was dirty at the capture, or is dirty before the restore and not covered by the snapshot |
| `ApplicationStateLimits.FaultingRestoreIsMissed` | internal/analyze/analyzer.go:5120-5122 | A procedure whose restoring assignment faults keeps a foreign value and is not reported (the documented cleanup boundary) |
| `ApplicationStateLimits.GuardedOverwriteIsMissed` | internal/analyze/analyzer.go:5557-5576 | A guarded restore of a variable overwritten between two guards is accepted: a foreign value stays and nothing is reported |
| `ApplicationStateRestores.SaveAndRestore` | internal/analyze/analyzer.go:5433-5504 | Writing a captured value back leaves exactly the origins dirty at the capture, whatever statements and faults lie between, and even if the restore itself faults |
| `ApplicationStateRestores.CopyAndRestore` | internal/analyze/analyzer.go:5494-5504 | From any flow and along any steps, writing the property from a variable that got its value from a capture, through any chain of copies not overwritten since, leaves exactly what was dirty at that capture, on a fault of the restore too |
| `ApplicationStateRestores.ChangeIsCoveredByCopies` | internal/analyze/analyzer.go:5461-5479 | A change made later is dirty and covered by every copy of the captured value |
| `ApplicationStateRestores.PathIsExact` | internal/analyze/analyzer.go:5433-5504 | Along any single path from the entry the flow is what the statements passed say: dirty are the changes since the value now in the property was captured, each variable that holds a captured value is proven, remembers what was dirty at its capture, its guards and the changes since, every other variable is absent, and the path flag tells whether a fault was passed |
| `ApplicationStateRestores.ChangeIsCovered` | internal/analyze/analyzer.go:5461-5479 | An assignment made while a proven snapshot stands becomes dirty and is covered by that snapshot |
| `ApplicationStateRestores.CleanPathIsNeutral` | internal/analyze/analyzer.go:5387-5401 | At a join with a path that never dirtied an origin its coverage survives, and a write from the no longer proven variable still clears it |
| `ApplicationStateRestores.UncoveredPathSpoils` | internal/analyze/analyzer.go:5387-5401 | A joined path that dirtied the origin uncovered keeps it reported |
| `ApplicationStateExact.JoinFreeReport` | internal/analyze/analyzer.go:5123-5178 | On a procedure without joins the report is exact: an assignment is listed if and only if some path to one of the four exits leaves it in the property, so a fully restored procedure is silent |
| `ApplicationStateExact.HandlerFlagIsExact` | internal/analyze/analyzer.go:5180-5182 | On every procedure the path flag of an in-state tells exactly whether some walk to the block passes an exceptional edge |
| `ApplicationStateExact.WitnessIsPreferred` | internal/analyze/analyzer.go:5196-5247 | The witness of an origin has the line of an edge that retains it and the most telling kind such an edge has: an error-handler path to the normal exit before an error exit, an unknown, a termination and a plain exit |
| `Text.StrconvItoa` | internal/analyze/analyzer.go:9589-9602 | The digit loop prints a natural number in decimal and a negative one as nothing; twenty places suffice for every 64-bit integer |
| `Text.ItoaSeparates` | internal/analyze/analyzer.go:9589-9602 | Two integers print alike if and only if they are equal or both negative |
| `Text.JoinInjective` | internal/analyze/analyzer.go:6313 | A key joined from separator-free parts determines the parts |
| `LeakIndex.ApplicationStateLeakOrigins` | internal/analyze/application_state_calls.go:45-72 | The nested loops list, per property and statement, exactly the unrestored assignments of a procedure |
| `LeakIndex.ListedOrigins` | internal/analyze/application_state_calls.go:45-72 | An origin is listed exactly if its procedure is analysed, its property is in the table and not restored by a Push or Pop pair, and its statement assigns that property and has a witness |
| `LeakIndex.KeySeparates` | internal/analyze/application_state_calls.go:74-76 | Two joined keys are equal if and only if identity and property agree and the statement numbers print alike |
| `LeakIndex.ShareOf` | internal/analyze/application_state_calls.go:34-41 | With distinct identities, the entries listed for an identity are what recomputing its procedure would list |
| `LeakIndex.Index.Build` | internal/analyze/application_state_calls.go:29-43 | The filled index knows exactly the keys of all leak origins and lists each procedure's in order |
| `LeakIndex.Index.OriginsFor` | internal/analyze/application_state_calls.go:93-98 | With distinct identities, what the index lists for a procedure equals recomputing its leak origins |
| `LeakIndex.Index.Lookup` | internal/analyze/application_state_calls.go:78-91 | A lookup succeeds exactly for state-change evidence that names a leaking (procedure, statement, property) triple, and returns that origin |
| `LeakIndex.PropertyKeyMeans` | internal/analyze/application_state_calls.go:100-108 | A target names a listed property exactly if it is the property's key after `application.` |
| `ConditionalCompilation.ScopeCounter.RecordOperation` | internal/analyze/analyzer.go:8713-8730 | Recording through the state pointer has the specified effect on counter, frames and flag |
| `ConditionalCompilation.ScopeCounter.CommitConditionalBranch` | internal/analyze/analyzer.go:8738-8760 | Closing a group in place credits its best branch to the enclosing branch |
| `ConditionalCompilation.ScopeCounter.SyncConditionalBranches` | internal/analyze/analyzer.go:8664-8703 | The loops that unwind, switch and extend the frame stack compute the specified synchronisation |
| `ConditionalCount.NoSelectionExceeds` | internal/analyze/analyzer.go:8664-8767 | No choice of branches executes more operations than the computed maximum |
| `ConditionalCount.BestSelection` | internal/analyze/analyzer.go:8664-8767 | Some choice of one branch per group attains the maximum |
| `ConditionalCount.RunCode` | internal/analyze/analyzer.go:8664-8767 | Running well-nested code adds exactly its maximum, saturated, to the branch it stands in and leaves the frames below alone |
| `ConditionalCount.CountIsMaximum` | internal/analyze/analyzer.go:5984-5989 | On every well-nested procedure the counter ends at min(2, the maximum over all choices of one branch per `#If` group) and the flag is set exactly when two is reached (MS-VBAL section 3.4.2) |
| `ResumeNext.SyncMirrors` | internal/analyze/analyzer.go:8664-8703 | After synchronising, the frame stack stands for exactly the statement's branch path, whatever it was before |
| `ResumeNext.ApplyKeeps` | internal/analyze/analyzer.go:6330-6416 | A statement's effect stays inside a finite set of states built from the procedure's own names, numbers and branch paths |
| `ResumeNext.PossibleIsListed` | internal/analyze/analyzer.go:5957-5971 | That set is finite: it is listed |
| `ResumeNext.ResumeNextScopeStateKey` | internal/analyze/analyzer.go:6286-6315 | The loop that collects key parts yields the specified key |
| `ResumeNext.StateKeyInjective` | internal/analyze/analyzer.go:6286-6315 | States with printable numbers and colon-free texts have equal keys only if they are equal, frames included |
| `ResumeNext.PossibleIsPrintable` | internal/analyze/analyzer.go:8534-8546 | Every state of a search is such a state |
| `ResumeNext.SeparatorCollides` | internal/analyze/analyzer.go:6286-6315 | With a colon inside a text two different states share a key |
| `ResumeNextSearch.FollowsEdge` | internal/analyze/analyzer.go:8834-8847 | An exceptional edge is followed if and only if it is an error edge beside a normal one (MS-VBAL section 5.4.4.1) |
| `ResumeNextSearch.ReasonsPersist` | internal/analyze/analyzer.go:6330-6416 | However a path goes on, it keeps every reason but the call flag, and the scope it reaches has not met an exit |
| `ResumeNextSearch.ProjectCallIsReported` | internal/analyze/analyzer.go:6356-6368 | Once a path has reached a resolved project call that no probe rule covers, every outcome reports the call, whether it leaves from the call's own block or from any later state |
| `ResumeNextSearch.ResumeNextScopeArrayBoundsContinuation` | internal/analyze/analyzer.go:8154-8176 | The tests for the second half of an array-bounds probe, one after the other, decide the specified rule and name the variable that receives the length |
| `ResumeNextSearch.ResumeNextScopeBoundsProbeFallback` | internal/analyze/analyzer.go:8177-8197 | The tests for a literal stored in place of a bound decide the specified rules for the lower bound and for the length |
| `ResumeNextSearch.ResumeNextScopeProbeFallback` | internal/analyze/analyzer.go:8122-8136 | The tests for any other value stored in place of what the probe did not deliver decide the specified rule |
| `ResumeNextSearch.ApplyResumeNextScopeStatement` | internal/analyze/analyzer.go:6330-6416 | Trying the rules in the source's order, with an early return for each that explains the statement, has the specified effect on the state |
| `ResumeNextReasons.RulesAgree` | internal/analyze/analyzer.go:8122-8197 | The continuation and fallback rules hold exactly under the conditions stated in terms of what the scope has met: one operation so far, the array and variable of the lower bound, the check of the error, the branch, each use once |
| `ResumeNextReasons.ApplyReasons` | internal/analyze/analyzer.go:6363-6403 | A statement adds the control-flow reason exactly if it is a control statement that no probe, check, inspection or marker rule explains, the call reasons exactly if no rule vouches for its calls, and takes the call reason back exactly if it is a fallback or inspection |
| `ResumeNextReasons.ApplyRemembers` | internal/analyze/analyzer.go:6352-6416 | What a statement leaves behind for later rules is the mark of the first rule that explains it |
| `ResumeNextReasons.OutcomeReasons` | internal/analyze/analyzer.go:6208-6284 | An outcome has the control-flow bit exactly when the path has passed an unexplained control statement, the call bit exactly when it has passed a call not cleared then or later, the project-call bit exactly when it has passed an uncovered project call, the unrestored bit exactly when it leaves the procedure |
| `ResumeNextReasons.EventsAreOfStatements` | internal/analyze/analyzer.go:6208-6284 | Those events are those of the statements on the path, each in the state it is met in |
| `ResumeNextReasons.RestoreIsReported` | internal/analyze/analyzer.go:6243-6248 | A restore is reported exactly when the path to it has passed a reason |
| `ResumeNextReasons.PathsAreInside` | internal/analyze/analyzer.go:6249-6283 | The paths of the search are exactly the runs of edges that start on a normal edge, pass statements that do not restore, follow error edges only beside normal ones and reach no exit, whatever the probe rules answer |
| `ResumeNextReasons.ReportIs` | internal/analyze/analyzer.go:6208-6284 | Everything reported, with its line: at restores their own line, at exits the end of the procedure for falling out and otherwise the line of the edge if it has one |
| `ResumeNextSearch.SeenIsDone` | internal/analyze/analyzer.go:6232-6238 | A key has been seen exactly when its state has been visited |
| `ResumeNextSearch.ResumeNextScopeOutcomes` | internal/analyze/analyzer.go:6208-6284 | The search ends on every procedure and emits exactly the outcomes of all finite paths along followed edges to a restore or an exit |
| `ResumeNextCount.ApplyCounts` | internal/analyze/analyzer.go:6330-6416 | A statement counts once exactly when it is a checked member probe or nothing else explains it |
| `ResumeNextCount.PathCounts` | internal/analyze/analyzer.go:6208-6284 | The counter at the end of a path is the run of the bookkeeping over the statements passed |
| `ResumeNextCount.FlagIsMaximum` | internal/analyze/analyzer.go:5984-5989 | On a path through well-nested code the multiple-operations flag is set exactly when some choice of branches operates twice |
| `Batches.BatchesPartition` | internal/analyze/analyzer.go:3638-3647 | Every procedure index lies in exactly one batch, no batch is empty, and there are at most four batches per worker |
| `Batches.CutBatches` | internal/analyze/analyzer.go:3642-3647 | The submitting loop hands out those ranges in order |
| `Scheduler.PlanIsValid` | internal/analyze/analyzer.go:1436-1458 | Every non-empty file list leads to a configuration with a worker, and with a pool whenever some file is cut into batches |
| `SchedulerInvariant.StepKeepsInv` | internal/analyze/analyzer.go:207-267 | Every action of every goroutine keeps the invariant: permits equal threads inside analysis code, wait groups equal registered threads, each file and batch has one place, nothing is lost without a reason |
| `SchedulerInvariant.AwaitedBatches` | internal/analyze/analyzer.go:3690-3696 | Once a file's wait group is empty, without error or cancellation, every batch of the file has succeeded |
| `SchedulerInvariant.AllSucceeded` | internal/analyze/analyzer.go:1508-1516 | When all workers have left without error or cancellation, every result slot holds one success |
| `SchedulerRuns.StepDecreases` | internal/analyze/analyzer.go:1468-1516 | A measure decreases with every step, cancellation included |
| `SchedulerRuns.RunIsBounded` | internal/analyze/analyzer.go:1432-1517 | Every run is finite, with a bound known at its start |
| `SchedulerRuns.Progress` | internal/analyze/analyzer.go:1468-1516 | In every reachable state, after an error or cancellation too, either all work has ended or some goroutine can go on |
| `SchedulerRuns.MaximalRunsEnd` | internal/analyze/analyzer.go:1508-1516 | Every run that cannot go on has ended with no permit held and every wait group empty |
| `SchedulerRuns.PermitsConserved` | internal/analyze/analyzer.go:207-224 | Permits held equal the threads executing analysis code and never exceed the limit; a release never finds the semaphore empty |
| `SchedulerRuns.NoSendOnClosedChannel` | internal/analyze/analyzer.go:248-267 | Once the procedure channel is closed no worker offers and no pool worker carries a batch |
| `SchedulerRuns.NilErrorIsComplete` | internal/analyze/analyzer.go:1510-1516 | A return without error means that every file and every batch was analysed exactly once and succeeded; with an error there was a failure or a cancellation |
| `SchedulerRuns.WrittenOnce` | internal/analyze/analyzer.go:1486 | In every reachable state each result slot and each batch has been written at most once |
| `SchedulerRuns.PlannedBatches` | internal/analyze/analyzer.go:3591 | Exactly the files at or above the threshold are cut, under a limit of two or more, into at most four batches per permit |
| `PlannedRuns.SetUp` | internal/analyze/analyzer.go:1436-1458 | The request, the processors and the loop over the files yield the limit, the file workers and the pool of the plan |
| `PlannedRuns.NeverMoreThanRequested` | internal/analyze/analyzer.go:1436-1449 | In every reachable state of a planned run at most the requested number of threads are inside analysis code, or without a request the number of processors and at least one |
| `PlannedRuns.ThreadsOfPlan` | internal/analyze/analyzer.go:1442-1458 | There is a file worker per permit but no more than files, and a pool worker per permit exactly if there are two permits and some file has five hundred procedures |
| `PlannedRuns.LimitIsReached` | internal/analyze/analyzer.go:1436-1458 | The request is not undercut: with enough files some run has exactly the requested number of threads inside |
| `SchedulerCauses.ErrorHasCause` | internal/analyze/analyzer.go:1508-1516 | A run returns an error only if it was cancelled from outside or some file or batch failed |
| `SchedulerCauses.JudgementIsExact` | internal/analyze/analyzer.go:3690-3697 | When a worker stops waiting its file counts as cancelled exactly if the run is being stopped, as failed exactly if a batch failed, and as a success exactly if every batch succeeded |
| `SchedulerCauses.SuccessIsEarned` | internal/analyze/analyzer.go:3690-3697 | However a run ends, no file is stored as a success unless each of its batches succeeded once |
| `SchedulerCauses.SendingStops` | internal/analyze/analyzer.go:1494-1507 | After an error or a cancellation at most the file at hand is still sent |
| `SchedulerCauses.ErrorsRetireWorkers` | internal/analyze/analyzer.go:1478-1491 | A worker that stores an error takes no further file: there are never more unsuccessful files than workers that have left |
| `ProcedureMerge.SerialFindings` | internal/analyze/analyzer.go:3592-3609 | The serial loop yields one scan of all procedures with one shared helper map |
| `ProcedureMerge.DropIsShared` | internal/analyze/analyzer.go:3935-3944 | Dropping repeated helper codes from a procedure scanned alone gives what the shared map would have given |
| `ProcedureMerge.MergeIsSerial` | internal/analyze/analyzer.go:3698-3713 | Merging the procedures' own results in source order equals the serial loop |
| `ProcedureMerge.MergeIsSerialIff` | internal/analyze/analyzer.go:364-375 | The merge agrees with the serial loop on every file if and only if no two helpers share a code |
| `ProcedureMerge.HelperCodes` | internal/analyze/analyzer.go:364-375 | The first reference to XlflowLog is reported under VBA105, the first to XlflowSetTraceFile under VBA106, later ones and other names not at all |
| `ProcedureMerge.AnalyzeAlone` | internal/analyze/analyzer.go:3648-3675 | Each slot holds its own procedure's result, whatever the order in which indices are analysed |
| `ProcedureMerge.MergeResults` | internal/analyze/analyzer.go:3698-3713 | The merge loop keeps the first finding of VBA105 and of VBA106 and every other finding |
| `ProcedureMerge.ParallelFindings` | internal/analyze/analyzer.go:3578-3714 | For every worker limit and every order of batches the parallel path returns the serial findings |
| `ScheduledFindings.OrderIsOfSuccesses` | internal/analyze/analyzer.go:3648-3675 | The order in which a run of the scheduler completes the batches of a file lists exactly the batches that have succeeded |
| `ScheduledFindings.OrderIsOnce` | internal/analyze/analyzer.go:3648-3675 | No batch comes twice in that order |
| `ScheduledFindings.RunCompletes` | internal/analyze/analyzer.go:3642-3714 | A run of a plan that returns no error has analysed every procedure of a file that was cut into batches: the order of its batches is a schedule `ProcedureMerge.ParallelFindings` accepts |
| `LaneTransfer.TransferBlock` | internal/analyze/array_safety_cfg.go:428-503 | A visit makes exactly the block's calls up to the first that stops the lane; it is stopped if and only if some call stops, and otherwise ends in the left fold of the visit callback over all calls |
| `LaneTransfer.TransferBlockLegacy` | internal/analyze/array_safety_cfg.go:165-244 | The same for the older walk |
| `LaneTransfer.BlockVisits` | internal/analyze/array_safety_cfg.go:444-503 | Header-only, single-line, out-of-range and block-level statements visit one line, the first; every other statement visits a line of its range if and only if the line holds text |
| `LaneTransfer.CallsMean` | internal/analyze/array_safety_cfg.go:428-503 | The calls of a block by the shape of its statement: where it starts and ends, whether the lane reads its physical lines, when the physical line replaces a blank text, which statements are visited at their header only |
| `LaneTransfer.LineCallsAreTextLines` | internal/analyze/array_safety_cfg.go:479-495 | The calls of a multi-line statement are its lines that hold text, each once with its own text, in rising order, and nothing else |
| `LaneTransfer.MadeUpToStop` | internal/analyze/array_safety_cfg.go:479-495 | The calls made are a prefix of the block's calls: none before the last stops the lane, and if calls are left out the last one did |
| `LaneTransfer.RunSplits` | internal/analyze/array_safety_cfg.go:479-495 | Visiting a stretch of lines is visiting its front and then, unless that stopped, its rest |
| `LaneTransfer.BlankLinesAreNeutral` | internal/analyze/array_safety_cfg.go:486-489 | Blank lines inside a range may be exchanged for other blank lines without any effect on the calls |
| `LaneTransfer.LegacyOffersAgree` | internal/analyze/array_safety_cfg.go:135-268 | A lane without selective source lines offers the same along every edge in both walks |
| `LaneTransfer.FaultKeepsBefore` | internal/analyze/array_safety_cfg.go:512-519 | An exceptional or uncertain edge carries the state before the block unless a reliable allocation is carried across an exceptional edge of a source-line block |
| `LaneTransfer.ReliableCrosses` | internal/analyze/array_safety_cfg.go:513-516 | In that case it carries the fold of the block's calls |
| `LaneTransfer.NormalCarriesFold` | internal/analyze/array_safety_cfg.go:511-519 | A certain normal edge carries the fold of the block's calls as the edge refines it |
| `LaneTransfer.StoppedOffersNothing` | internal/analyze/array_safety_cfg.go:505-507 | A lane that stops at a block offers nothing along its edges |
| `LaneTransfer.FaultIgnoresPolicy` | internal/analyze/array_safety_cfg.go:512-519 | Two policies that differ only in visits and edge refinements send the same along an exceptional or uncertain edge |
| `LaneSolver.SemilatticeAbsorbs` | internal/analyze/array_safety_state.go:1198-1231 | An associative, commutative, idempotent merge absorbs on every set of states |
| `LaneSolver.AloneIsSettled` | internal/analyze/array_safety_cfg.go:135-268 | In a lane that stays in a space closed under the merge on which it absorbs, every block that is not pending has delivered all it can |
| `LaneSolver.LanesKeepStep` | internal/analyze/array_safety_cfg.go:397-528 | At every moment of the combined walk such a lane is in a state of its own walk, whatever the other lanes are and do |
| `LaneSolver.LaneIndependence` | internal/analyze/array_safety_cfg.go:317-325 | When the combined walk ends, such a lane has exactly the states its own walk ends with |
| `LaneSolver.CombinedEnds` | internal/analyze/array_safety_cfg.go:397-528 | If every lane is steady in a space of its own and its own walk ends, so does the combined walk |
| `LaneSolver.LaneEnds` | internal/analyze/array_safety_cfg.go:135-268 | A lane's own walk ends whenever every change by a merge goes down in some rank |
| `LaneSolver.TableMeetsSent` | internal/analyze/array_safety_cfg.go:505-525 | For every merge and at every moment of the combined walk a lane's state of a block is the meet, in order, of everything the lane has sent there |
| `LaneSolver.FactAtBlock` | internal/analyze/array_safety_cfg.go:505-525 | A fact that a meet has exactly when both sides have it holds at a block exactly when it holds of everything the lane has sent there |
| `LaneSolver.FaultsAreAbsorbed` | internal/analyze/array_safety_cfg.go:512-525 | When the walk is over the target of an edge has absorbed what the edge carries, and behind an untrusted fault the state before the block |
| `LaneLimits.IndependentIffAbsorbing` | internal/analyze/array_safety_cfg.go:270-278 | For every space closed under the merge: lanes over one graph that stay in the space always end as if alone, if and only if the merge absorbs on the space; the witness is two lanes over one graph with one entry |
| `LaneWalk.SmallestQueued` | internal/analyze/array_safety_cfg.go:401-411 | Whatever the iteration order, the smallest queued block is chosen |
| `LaneWalk.WalkArrayCFGCombined` | internal/analyze/array_safety_cfg.go:326-528 | Whenever the walk ends, the loops return the states of the specified combined walk |
| `LaneWalk.WalkArrayCFGWorklistLegacy` | internal/analyze/array_safety_cfg.go:135-268 | The same for the single-lane walk |
| `LaneWalk.CombinedAgreesWithLegacy` | internal/analyze/array_safety_cfg.go:317-325 | If every lane is steady in a space of its own and its own walk ends, the shared queue ends and gives each lane the final states of its own walk |
| `LaneWalk.WalksEndAndAgree` | internal/analyze/array_safety_cfg.go:317-325 | Where merges also go down in rank nothing need be assumed about ending: all walks end and agree |
| `ArrayState.MeetArrayState` | internal/analyze/array_safety_state.go:1212-1231 | The loop over the keys of both sides yields the specified meet; a key one side lacks is forgotten |
| `ArrayState.MeetArrayDimensions` | internal/analyze/array_safety_state.go:1338-1358 | The dimensions kept for `ReDim Preserve` meet bound by bound; differing ranks leave none |
| `ArrayState.MeetClaims` | internal/analyze/array_safety_state.go:1212-1333 | A meet knows the variables of either side and claims a kind, a known array, an object, a failure flag, dimensions, an origin, a proof or any name of a variable exactly when both sides do |
| `ArrayState.ClaimsDetermine` | internal/analyze/array_safety_state.go:1233-1333 | Those claims are all there is to the parts both sides must agree on |
| `ArrayState.MeetFears` | internal/analyze/array_safety_state.go:1316-1318 | A meet has a doubt about a variable exactly when both sides know the variable and one of them has the doubt |
| `ArrayState.MeetSources` | internal/analyze/array_safety_state.go:1267-1284 | A condition or flag stands exactly when one side has it and the other, which knows the variable, has no other |
| `ArrayState.MeetKeepsBounds` | internal/analyze/array_safety_state.go:1338-1358 | A kept bound is the left one, and only where the right one is equivalent |
| `ArrayState.EquivalentBounds` | internal/analyze/array_safety_variables.go:602-607 | Two bounds are equivalent exactly if they are the same number, or without two numbers the same non-empty expression; in either order |
| `ArrayState.MeetCommutes` | internal/analyze/array_safety_state.go:1212-1333 | But for the wording of kept bounds the order of the sides does not matter |
| `ArrayState.ClaimAtBlock` | internal/analyze/array_safety_cfg.go:505-525 | At every moment of the combined walk a block claims something of a variable exactly when every state the lane has sent there claims it |
| `ArrayState.FearAtBlock` | internal/analyze/array_safety_cfg.go:505-525 | Among states over the same variables a block has a doubt exactly when some state sent there has it |
| `ArrayState.ClaimSurvivesFault` | internal/analyze/array_safety_cfg.go:512-525 | What the end of a walk claims behind an untrusted fault was claimed before the block that may have faulted |
| `ArrayState.AbsorbsIffHarmless` | internal/analyze/array_safety_state.go:1198-1358 | The real merge absorbs on a set of states if and only if kept bounds are proper, no variable has two different conditions or two different flags, and a variable that some state lacks carries no source and no doubt in the others |
| `ArrayState.IndependentIffHarmless` | internal/analyze/array_safety_state.go:1198-1358 | Inside a space closed under the real merge, lanes over one graph are independent if and only if the states of the space are harmless in that sense |
| `ArrayState.SourcesDoNotAbsorb` | internal/analyze/array_safety_state.go:1267-1285 | Two states of a closed space with different conditions, or different flags, for one variable: some two lanes over one graph that stay in the space are not independent |
| `ArrayState.ForgottenSourcesDoNotAbsorb` | internal/analyze/array_safety_state.go:1217-1228 | The same for a source or a doubt of a variable that another state has no entry for |
| `ArrayState.CancelledSourceReturns` | internal/analyze/array_safety_state.go:1267-1275 | Two different conditions cancel, and merging the second state once more brings its condition back |
| `ArrayState.ForgottenSourceReturns` | internal/analyze/array_safety_state.go:1217-1228 | A flag that was forgotten because one side lacks the variable comes back with the next merge of the same state |
| `ArrayState.OneSourceAbsorbs` | internal/analyze/array_safety_state.go:1198-1358 | States over the same variables with proper bounds and at most one condition and one flag per variable are closed under the merge, which absorbs on them, so lanes that stay there are independent |
| `ArrayState.KeyedDescends` | internal/analyze/array_safety_state.go:1233-1358 | On those states every merge that changes a state goes down in a rank: facts are lost, doubts and sources gained |
| `ArrayState.GuardedLanesAgree` | internal/analyze/array_safety_cfg.go:317-325 | Lanes over the real merge, each with its own variables and sources: the combined walk and every lane's own walk end, with the same states |
| `ArrayState.WalkGuardedLanes` | internal/analyze/array_safety_cfg.go:326-528 | The combined loops over the real merge end and return to each such lane the states its own walk ends with |
| `ByRefSummaries.GrowthAscends` | internal/analyze/array_safety_byref.go:64-87 | A re-run summary only grows, stays below every covering table, and leaves only its callers to be re-run |
| `ByRefSummaries.InferArrayByRefAllocationSummaries` | internal/analyze/array_safety_byref.go:12-90 | For monotone summary functions and distinct keys the worklist ends and returns the least solution of the simultaneous equations, under mutual and self recursion |
| `ByRefSummaries.LeastSolutionIsUnique` | internal/analyze/array_safety_byref.go:34-36 | There is one least solution, so the processing order does not show |
| `ByRefReach.ParameterMay` | internal/analyze/array_safety_byref.go:954-1021 | The recursive scan restores the visiting set and computes the cut search from any point of a recursion |
| `ByRefReach.QueryIsExact` | internal/analyze/array_safety_byref.go:948-960 | Asked from outside, the cut search finds a cause if and only if one is reachable along unproven ByRef bindings |
| `ByRefReach.EdgeMeans` | internal/analyze/array_safety_byref.go:976-1008 | An edge is a call in a reachable statement that is not read-only, passes the array itself, is resolved and mapped, and binds it directly to a ByRef array parameter nobody has proven safe |
| `ByRefReach.AskParameter` | internal/analyze/array_safety_byref.go:1023-1095 | Both questions answer true exactly for a parameter that is not a ByRef array, or from which a direct cause is reachable |
| `ByRefReach.QuestionsRead` | internal/analyze/array_safety_byref.go:948-1075 | Both questions stop at recovered statements and at calls the analysis cannot see into; the first also at a loss of the allocation, the second at any change and at procedures that are uncertain as a whole |
| `ByRefReach.InvalidatedIsMutated` | internal/analyze/array_safety_byref.go:1015-1022 | Where every loss is a change, a parameter that may be invalidated may be mutated |
| `ByRefReach.ElementWriteOnlyMutates` | internal/analyze/array_safety_byref.go:1015-1022 | The converse fails: an element write in a callee changes the caller's array without invalidating it |
| `ByRefReach.VisitKeysSeparate` | internal/analyze/array_safety_byref.go:958-961 | Within one question the key text stands for the procedure key and the parameter index |
| `CfgSearch.ArrayFalseBranchRequiresBlock` | internal/analyze/array_safety_byref.go:388-422 | True if and only if some normal path from the guard's false branch meets the required block and none reaches the normal exit without it |
| `CfgSearch.RequiresMeans` | internal/analyze/array_safety_byref.go:388-422 | What is decided, edge by edge: which edges form a normal path that starts on the guard's false branch |
| `GoSubBody.LastDecides` | internal/analyze/array_safety_byref.go:1360-1379 | The bit after a statement is what its last deciding part says |
| `GoSubBody.StatementDecides` | internal/analyze/array_safety_byref.go:1337-1344 | After a statement the array is proven allocated exactly if the statement allocates it with no later loss, or a guaranteed call does, or it was proven and the statement neither loses it nor makes an unknown call; calls outweigh the text |
| `GoSubBody.PathDecides` | internal/analyze/array_safety_byref.go:1300-1355 | The bit at the end of a path tells exactly whether some statement on it allocated the array and none dropped it since |
| `GoSubBody.ArrayLocalGoSubAllocationInvariant` | internal/analyze/array_safety_byref.go:1264-1358 | True if and only if all blocks are found and every path out of the body leaves at the first Return or an exit with the replayed bit set, crossing no unknown edge |
| `GoSubBody.AcceptedMeans` | internal/analyze/array_safety_byref.go:1264-1358 | Spelled out: the label lies before its Return, every statement in between has a block, and every run of edges inside the body leaves it only along known edges, at the Return or a normal, exceptional or termination exit, and with the array allocated on the way and not dropped since |
| `GoSubBody.AllowedIs` | internal/analyze/array_safety_byref.go:1275-1286 | Every statement from the label up to the Return puts its block into the body; of several in one block the last counts |
| `CallerEvidence.RecordDescribes` | internal/analyze/array_safety_byref.go:2243-2267 | A fact built call by call tells exactly what its calls said, independent of their order |
| `CallerEvidence.MergeDescribes` | internal/analyze/array_safety_byref.go:2003-2025 | Merging two facts tells exactly what both sets of calls said |
| `CallerEvidence.MergeCommutes` | internal/analyze/array_safety_byref.go:2003-2025 | The merge is commutative up to the condition of an incompatible fact and letter case |
| `CallerEvidence.MergeAssociates` | internal/analyze/array_safety_byref.go:2003-2025 | It is associative up to the same equivalence |
| `CallerEvidence.AggregateTarget` | internal/analyze/array_safety_byref.go:1858-1872 | In whatever order callers and parameters are visited, the aggregate describes what all callers said |
| `CallerEvidence.AnyOrderAgrees` | internal/analyze/array_safety_byref.go:1905-1924 | Two aggregations yield the same entry and condition facts, conditions up to letter case |
| `CallerEvidence.EntryMeaning` | internal/analyze/array_safety_byref.go:1905-1924 | An entry is allocated exactly when every recorded call passes an allocated array, and conditional exactly when all conditions agree and no call is unknown |

## Left out

- VBA text recognition: regular expressions, comment stripping, argument splitting, identifier cleaning and letter-case folding are inputs of the statement datatypes; two names are equal when their folded texts are.
- Procedure calls, ByRef aliasing of saved variables and cross-procedure effects inside VBA203: the analysis is local to a procedure, and a call is a statement without effect on its state.
- The pairing of Push and Pop helpers is a flag of a procedure in `LeakIndex`; effect summaries are not modelled.
- ApplicationStateSoundness.LeakIsReported: walks with a fault that clears an origin, or with an accepted guarded restore that clears its own assignment while the variable no longer holds a captured value, are out of scope because the statement is false there (see `ApplicationStateLimits`).
- ApplicationStateExact.WitnessIsPreferred: the four exits are different blocks, as graph construction makes them.
- ApplicationStateExact.JoinFreeReport: at joins the report is not exact, because a variable that is captured on one path only counts as unproven; soundness (`LeakIsReported`) and the effect of a join (`CleanPathIsNeutral`, `UncoveredPathSpoils`) are stated separately.
- applicationStateMatchingGuard: which pairs of guard and restore the code accepts is an arbitrary relation of the graph; all results but the second limit hold for every such relation.
- Maps that are nil in Go: flows are created with maps, and a missing in-state is the null record of `MergeFlow`.
- Resume Next probe recognition: six answers per statement and state come from an arbitrary deterministic judge; the theorems hold for every judge.  The order in which the code consults them, and every update of the state, is modelled.
- Grouping and sorting of VBA214 outcomes into findings (internal/analyze/analyzer.go:5990-6043): it adds a key of two line numbers and a union of flags.
- ResumeNextCount.FlagIsMaximum: paths that leave and re-enter well-nested code, such as loops, are covered by `PathCounts` and the search theorem only, because a repeated statement has no unique place in the nesting.
- SchedulerRuns.NilErrorIsComplete: analysis is assumed to return a cancellation error only when its own context is done; a foreign error that wraps `context.Canceled` would be swallowed by the batch completion.
- Cancellation reaches child contexts at once in the scheduler model; the two cancellations deferred to function exit have no observer and are not steps.
- Fairness: every step decreases a measure, so runs end under every schedule and none is needed.
- Telemetry counters, start hooks, profiles and panics of analysis code in the scheduler.
- ProcedureMerge.ParallelFindings: a run with an error or a cancellation returns no findings, so only complete schedules are compared.
- The compact solver that replaces the array worklist when it can index a graph, and cancellation inside the combined walk: only the legacy fall-back is modelled.
- LaneWalk.WalkArrayCFGCombined: takes the number of pops after which the walk is over as a ghost argument, because the real merge has a rank only where each variable has one source; `WalksEndAndAgree` derives it from a rank, and `ArrayState.WalkGuardedLanes` needs no such argument.
- LaneWalk.WalkArrayCFGWorklistLegacy: the same; `LaneSolver.LaneEnds` derives the number from a rank.
- Visits, edge refinements and stops of the array lanes are arbitrary functions of text, line and state; what they do to the components of an array value, and that the variables and sources of a lane stay the same, is not modelled.
- The components of an array value are grouped by the way they meet; a nil list of dimensions and an empty one are the same.
- ByRefSummaries.InferArrayByRefAllocationSummaries: the control-flow walk of one procedure is an arbitrary function that is monotone, reads only its callees' summaries and speaks of its own parameters; procedure keys are distinct.
- The worklist of entry states (internal/analyze/array_safety_byref.go:1598-1959): contributions are replaced instead of joined, so no ascending chain can be assumed; only its aggregation and extraction are modelled.
- CallerEvidence.RecordDescribes: which calls are recorded at all (not self-recursive, bound, not vacuous) and what condition they carry is an input of the recording step.
- ByRefReach.AskParameter: a negative parameter index, for which the code answers true, is not represented; procedures are told apart by index, where the code uses lower-cased keys.
- Active UI state, array capacity, parsing, the type database, suppression, message wording, configuration, command-line programs, Excel and editor integration.
