# DevCore verification

A Dafny model of the parts of DevCore OS whose correctness spans several functions, several
threads or a restart, with proofs of what they promise. `dafny verify dfyconfig.toml` checks it.

| part | files | what is proved about |
|---|---|---|
| Test plans | `test_plan.dfy`, `test_schedule.dfy`, `test_reference.dfy` | depth-first order against an independent description, cycle errors, schedule |
| Text | `text.dfy` | splitting and joining of lines and paths |
| Resource policy | `policy.dfy` | profiles, worker budgets, memory limits, scopes |
| Installer | `installer_domain.dfy`, `installer_service.dfy`, `installer_protocol.dfy`, `installer_safety.dfy`, `installer_theorems.dfy`, `installer_outcomes.dfy`, `installer_races.dfy`, `installer_worker.dfy` | the job, its locked service state, and all interleavings of remote calls with the install worker |
| Jobs | `execution.dfy`, `job_protocol.dfy`, `job_safety.dfy`, `job_theorems.dfy`, `job_exits.dfy`, `job_registry.dfy`, `job_worker.dfy` | bounded capture, the log store, and the concurrent job registry |
| Provisioning | `provision_plan.dfy`, `provision_runtime.dfy`, `provision_restarts.dfy`, `provision_service.dfy` | the planner, and the runner that resumes after crashes |
| First boot | `first_boot.dfy`, `first_boot_store.dfy` | the configuration file, its agreement with the installer, its atomic publication |
| Update plans | `update_json.dfy` | the hand-written JSON printer against a reference decoder |
| Compositor | `compositor.dfy` | the window registry |
| Workspaces | `workspace_paths.dfy` | host-to-container paths and editor paths |

## How it is modelled

Objects the program updates in place are classes; their methods are proved equal to functions of
the old state, or to steps of a system, and the lemmas speak about those. Concurrent parts are systems of
atomic steps (`Apply`, `Run`): one step per lock section, with tool results, disk inventories,
child output, file faults, crashes and the order of steps chosen freely. `Reachable` means
reachable by any such run, so a theorem about it covers every interleaving.

The install worker is a program counter over `SCRIPT`, one entry per progress signal, tool or
transition; a log of events records what happened, and `Justified` says what must hold of the
past when each kind of event happens. The install worker, the job worker and the provisioning
worker are also written as the program runs them, as methods with loops over the shared objects,
and each is proved to be a run of its step system (`RunInstallWorker`, `RunJob`, `RunPlan`), so
the theorems about all runs apply to them.

Six expectations are false of the program, and the model shows it:

- A cancelled job need not stay Cancelled: the worker looks at the state, releases the lock and
  records a failure later. `CancelledIsNotFinal` gives a run, `LeavingCancelledIff` all the ways
  out, and `CancelStandsIff` says which cancels stand.
- A complete job need not stay Complete: the last progress signal may fail.
  `CompleteIsNotFinal` gives a run, `LeavingCompleteIff` the only way out while the worker lives.
- Preparing does not imply a worker: `PreparingNeedsNoWorker` reaches the end of the job counter,
  and `BusyWithoutWorker` shows that this is the one exception.
- Restarting a finished selection may execute it again: when its writes failed and the process
  crashed. `UnsavedWorkRunsAgain` gives the run, `RestartingRunsNothingIff` the exact condition.
- Normalizing a path is not always idempotent: where empty paths are refused, `" /"` normalizes to
  a blank, which is then refused. `NormalFormCanBeRefused` shows it, `ResolvingIsIdempotent` says when.
- Window ids are distinct only until the counter saturates: `IdsDoRepeat` reaches the repetition,
  `SaturationRepeatsTheLastId` says when it happens.

The message of `resolve_relative_components` says that a path must not contain `.`, but the path
parser drops every `.` except a leading one, so `a/./b` is accepted; the model follows the code.

## Model

| member | source | states |
|---|---|---|
| TestPlans.OrderExistsExactly | features/studio/test/src/lib.rs:220-308 | A plan gets an order exactly when it is well formed and acyclic, `Cycle` exactly when it is well formed and cyclic (self-loops included), the reported id lies on a cycle, and otherwise the validation error is returned |
| TestPlans.OrderRespectsDependencies | features/studio/test/src/lib.rs:220-308 | A successful order is a permutation of the step ids in which every step follows all its direct and transitive dependencies |
| TestPlans.ValidationIsExact | features/studio/test/src/lib.rs:220-241 | Validation passes exactly the well-formed plans, reports the earliest fault, and an unknown dependency only when every step by itself is fine |
| TestPlans.ListingOfDependenciesIsIrrelevant | features/studio/test/src/lib.rs:283-308 | Reordering or repeating entries of dependency lists changes neither the order nor the cycle error |
| TestPlans.OvertakingNeedsADependency | features/studio/test/src/lib.rs:243-249 | The order is the insertion order as far as dependencies allow: a later step overtakes an earlier one only if that step, or one listed before it, depends on it |
| TestReference.OrderIsUnfolding | features/studio/test/src/lib.rs:283-308 | The order is the dependency trees of the listed steps written out, each step after its dependencies in ascending order of names, with first mentions kept: an independent description that fixes the whole order |
| TestReference.DependenciesInNameOrder | features/studio/test/src/lib.rs:299-308 | Of two dependencies of a listed step that no earlier step needs, the one later by name comes first only if a dependency up to the other by name needs it |
| TestReference.SiblingsInNameOrder | features/studio/test/src/lib.rs:299-308 | The same for any step, from any state of the traversal in which it is entered |
| TestReference.SomeListing | features/studio/test/src/lib.rs:299-301 | Every plan has an ascending listing of its dependencies, so the description applies to every plan |
| TestPlans.StepFaultIsExact | features/studio/test/src/lib.rs:221-230 | The fault of a step is its empty id, else its invalid command, else the repetition of an earlier id |
| TestPlans.ScheduleFollowsOrder | features/studio/test/src/lib.rs:252-280 | The schedule has one entry per step in execution order, with that step's kind and the budget of its class, deferred exactly for emulator tests on a constrained machine |
| TestPlanning.VisitNodeIsSound | features/studio/test/src/lib.rs:283-308 | From any state whose unfinished nodes all lead to the node visited, a visit either extends the order soundly, finishing only what is needed, or names a node on a cycle |
| TestPlanning.TraversalIsExact | features/studio/test/src/lib.rs:243-308 | The traversal from scratch yields either all steps once with dependencies first, and then there is no cycle, or a step on a cycle |
| TestPlanning.TransitiveDependenciesFirst | features/studio/test/src/lib.rs:283-308 | If direct dependencies stand before each entry, so does everything reachable |
| TestPlanning.OrderExcludesCycles | features/studio/test/src/lib.rs:283-308 | An order with dependencies first leaves no cycle through any of its entries |
| TestPlanning.VisitNodeIgnoresListing | features/studio/test/src/lib.rs:299-304 | A visit depends only on the sets of dependencies, because they are sorted and deduplicated |
| TestPlans.Traversal.Visit | features/studio/test/src/lib.rs:283-308 | The recursive visit over the mutable state and order computes the specification walk, and terminates because each call marks a new id |
| TestPlans.TestPlan.Push | features/studio/test/src/lib.rs:209-211 | Appends one step |
| TestPlans.TestPlan.IndexChecked | features/studio/test/src/lib.rs:221-230 | The first pass reports the first faulty step or indexes all steps and leaves only unknown dependencies to report |
| TestPlans.TestPlan.CheckDependencies | features/studio/test/src/lib.rs:232-241 | The second pass reports the first unknown dependency, if any |
| TestPlans.TestPlan.ExecutionOrder | features/studio/test/src/lib.rs:220-249 | Validation, indexing and traversal by mutation give the specified order or error |
| TestPlans.TestPlan.Schedule | features/studio/test/src/lib.rs:252-280 | The schedule is the specified one |
| StringOrder.AscendingListingIsUnique | features/studio/test/src/lib.rs:299-301 | Sorting and deduplicating is the only ascending listing of a set of names |
| StringOrder.SortedDistinctDependsOnElements | features/studio/test/src/lib.rs:299-301 | `sort` then `dedup` gives the same list for lists with the same elements |
| ResourcePolicy.WorkersGrowWithResources | shared/core/src/policy.rs:152-228 | More CPUs, more memory, less pressure or leaving battery never lowers a profile or the worker count of any class, and never newly defers work |
| ResourcePolicy.ContentionCosts | shared/core/src/policy.rs:190-228 | Below one percent pressure nothing is lost, from one percent on half, from five percent on all but one; battery halves builds once more; interactive work and everything but the number of workers stay as they are |
| ResourcePolicy.ProfileNeedsBoth | shared/core/src/profile.rs:59-71 | Each class of machine needs both its processors and its memory |
| ResourcePolicy.PressureIsTheLargest | shared/core/src/policy.rs:279-287 | The pressure used is the largest of the known ones, or zero |
| ResourcePolicy.ClassesAreRanked | shared/core/src/policy.rs:152-181 | Weights fall from interactive work to caches, only interactive work is protected, and exactly emulators and caches are reclaimable |
| ResourcePolicy.OnlyEmulatorsAreDeferred | shared/core/src/policy.rs:190-228 | Only emulator work is deferred, exactly on a Low profile, on battery or at one percent pressure and above; at five percent nothing gets more than one worker |
| ResourcePolicy.HalvedAtLeastOne | shared/core/src/policy.rs:208-219 | `div_ceil(2).max(1)`: half rounded up, at least one |
| ResourcePolicy.ClampStaysInBounds | shared/core/src/policy.rs:312-317 | A clamped budget never exceeds the total or the ceiling, reaches the floor when the total does, and is the plain quotient in between |
| ResourcePolicy.ClampGrowsWithTotal | shared/core/src/policy.rs:312-317 | A clamped budget is monotone in the total |
| ResourcePolicy.ScopeLimitsFitTheMachine | shared/core/src/policy.rs:231-277 | The memory limits of a scope respect total, floor and ceiling, high never exceeds max, and each limit is present exactly for its classes |
| ResourcePolicy.ScopeLimitsGrowWithMemory | shared/core/src/policy.rs:231-277 | More memory never gives a smaller limit to the same work |
| ResourcePolicy.ScopePreservesCommand | shared/core/src/policy.rs:95-121 | A scope accepts exactly the non-empty commands without NUL, and what follows the first `--` of its argv is the command unchanged |
| ResourcePolicy.ParseProfile | features/onboarding/firstboot/src/lib.rs:157-168 | A profile name parses to a profile exactly when it is that profile's name |
| InstallerDomain.EligibilityIsExact | features/installer/domain/src/lib.rs:40-60 | A disk is eligible exactly when it has a stable id and a device path, is large enough, and is neither removable, live, installer media nor virtual |
| InstallerDomain.PhraseIdentifiesByEnding | features/installer/domain/src/lib.rs:439-457 | The phrase holds the last eight characters of the disk's name, and two disks share it exactly when these agree |
| InstallerDomain.NewRequest | features/installer/domain/src/lib.rs:192-212 | A request exists only for an eligible disk, its own phrase and faultless settings; a wrong phrase is the error exactly when the disk is eligible and the phrase differs |
| InstallerDomain.ResolveDisk | features/installer/daemon/src/main.rs:530-537 | Resolving a disk succeeds exactly when a listed disk has the identity, and gives a listed one |
| InstallerDomain.BoundedIsIdempotent | features/installer/domain/src/lib.rs:341-350 | A diagnostic holds at most 512 characters and no control character but newline, and sanitizing twice changes nothing |
| InstallerDomain.BoundedKeepsText | features/installer/domain/src/lib.rs:341-350 | A diagnostic is the longest allowed beginning of the message without its dropped characters, and clean text stays as it is |
| InstallerDomain.StorageBoundaryIsOneWay | features/installer/domain/src/lib.rs:303-376 | Through any sequence of moves, cancels and failures a job past the storage boundary goes on or fails, a failed one stays failed, and a cancelled one never runs again |
| InstallerDomain.CompletionPassesStorage | features/installer/domain/src/lib.rs:303-376 | A job gets past the storage boundary only by a move from Preparing to Destructive |
| InstallerDomain.InstallJob.Transition | features/installer/domain/src/lib.rs:352-376 | Moves along the allowed edges only, else the error and no change |
| InstallerDomain.InstallJob.Cancel | features/installer/domain/src/lib.rs:332-339 | Cancels Ready or Preparing, else the error and no change |
| InstallerDomain.InstallJob.Fail | features/installer/domain/src/lib.rs:341-350 | Records the sanitized diagnostic by the filtering loop and fails the job in its phase |
| InstallerService.ServiceState.Preflight | features/installer/daemon/src/main.rs:136-155 | A worker or an unusable disk leaves everything unchanged; otherwise the disk is stored, a new Ready job replaces the old, and the disk's phrase is returned |
| InstallerService.ServiceState.Start | features/installer/daemon/src/main.rs:172-202 | Admission errors change nothing; otherwise the job is reset and numbered, and the counter's end is reported after that |
| InstallerService.ServiceState.SpawnFailed | features/installer/daemon/src/main.rs:203-217 | A failed spawn releases the worker and fails the job |
| InstallerService.ServiceState.Cancel | features/installer/daemon/src/main.rs:228-257 | Cancels the named job when it is cancellable, else reports and changes nothing |
| InstallerService.ServiceState.Transition | features/installer/daemon/src/main.rs:409-440 | A locked transition changes the job or nothing |
| InstallerService.ServiceState.RevalidateAndTransition | features/installer/daemon/src/main.rs:442-471 | Enters Destructive only for a live, eligible disk with the preflighted identity and device |
| InstallerService.ServiceState.Release | features/installer/daemon/src/main.rs:404-406 | Clears `worker_active` and nothing else |
| InstallSafety.StepKeepsInv | features/installer/daemon/src/main.rs:136-407 | Every preflight, start, spawn result, cancel and worker section, in any state of the invariant, keeps it and appends only justified events |
| InstallSafety.RunKeepsInv | features/installer/daemon/src/main.rs:136-407 | The invariant and the justification of every logged event hold after every interleaving |
| InstallSafety.CrossingKeeps | features/installer/daemon/src/main.rs:442-471 | Crossing the storage boundary with the live disk keeps the invariant |
| InstallTheorems.AtMostOneWorker | features/installer/daemon/src/main.rs:172-202 | In every reachable state at most one worker lives, exactly while `worker_active` holds, on the preflighted disk and the current job |
| InstallTheorems.PreflightIsFrozen | features/installer/daemon/src/main.rs:136-155 | While a worker lives no step replaces the preflighted disk or the job number |
| InstallTheorems.BusyWithoutWorker | features/installer/daemon/src/main.rs:190-202 | Without a worker a job is Preparing only when the job counter ran out |
| InstallTheorems.StartSpawnsUnlessExhausted | features/installer/daemon/src/main.rs:172-202 | An admitted start leaves a worker exactly when a job number is left |
| InstallTheorems.CancelPreventsStorage | features/installer/daemon/src/main.rs:228-257 | After an accepted cancel the job never crosses a boundary, revalidates or prepares a disk, or completes, in any interleaving |
| InstallTheorems.QuietExitSkipsNoUnmount | features/installer/daemon/src/main.rs:371-380 | A worker leaves quietly only for a cancelled job that never crossed the storage boundary |
| InstallTheorems.QuietExitHasNoStorage | features/installer/daemon/src/main.rs:371-385 | The check that leads to the quiet exit sees Cancelled only with `storage_started` false |
| InstallTheorems.LeavingCancelledIff | features/installer/daemon/src/main.rs:371-394 | Cancelled is left exactly by a failed spawn, the recording of a failure, a new preflight or a new start |
| InstallTheorems.CancelStandsIff | features/installer/daemon/src/main.rs:371-394 | Over any run without a new preflight or start, a job cancelled under a running worker stays Cancelled exactly if the worker had not yet looked at the state; otherwise its next two moves make it Failed |
| InstallTheorems.LeavingCompleteIff | features/installer/daemon/src/main.rs:350-394 | While the worker lives, Complete is left exactly by recording a failed last progress signal |
| InstallRaces.CancelledIsNotFinal | features/installer/daemon/src/main.rs:371-394 | A reachable state in which a cancelled job becomes Failed, so Cancelled is not absorbing |
| InstallRaces.CompleteIsNotFinal | features/installer/daemon/src/main.rs:350-357 | A reachable state in which a complete job becomes Failed, so Complete is not absorbing |
| InstallRaces.PreparingNeedsNoWorker | features/installer/daemon/src/main.rs:190-202 | A reachable state in which the job is Preparing and no worker exists, after the last job number |
| InstallTheorems.StorageIsConfirmed | features/installer/daemon/src/main.rs:442-471 | Storage is entered only with a live eligible disk of the identity and device that the user confirmed with its own phrase at the start of that job |
| InstallTheorems.ToolsRunInOrderOnce | features/installer/daemon/src/main.rs:300-358 | The tools of a job succeed each at most once and in script order, and its progress percentages strictly rise |
| InstallTheorems.CompletionNeedsEveryTool | features/installer/daemon/src/main.rs:300-358 | A job completes only after all ten tools succeeded in order, in the last phase, never cancelled |
| InstallOutcomes.ResultDecides | features/installer/daemon/src/main.rs:322-358 | In every reachable state a tool counts as succeeded, and a signal as sent, exactly when its own result says so; otherwise the log stays as it is and the worker turns to the error path |
| InstallOutcomes.FailedSectionEndsTheWork | features/installer/daemon/src/main.rs:300-394 | After a failed tool, signal or disk check no run ever adds progress, a tool, a boundary or a completion of that job number |
| InstallOutcomes.RevalidationDecides | features/installer/daemon/src/main.rs:442-471 | The boundary is crossed, and storage counted as started, exactly when the disk check passes; otherwise nothing changes but the way to the error path |
| InstallOutcomes.RevalidationIsExact | features/installer/daemon/src/main.rs:442-471 | The disk check passes exactly for the live, eligible, preflighted disk under its preflighted device, of a job still Preparing |
| InstallOutcomes.FailureIsShown | features/installer/daemon/src/main.rs:381-394 | A recorded failure shows the phase of the last boundary the log has and the sanitized diagnostic, and logs that phase |
| InstallOutcomes.FailedSpawnIsShown | features/installer/daemon/src/main.rs:203-217 | A failed spawn leaves no worker and a failed job in the first phase with its sanitized diagnostic |
| InstallOutcomes.PreflightIsExact | features/installer/daemon/src/main.rs:136-155 | A preflight is accepted exactly without a worker and for a listed, eligible disk, and then makes a new Ready job |
| InstallOutcomes.AdmissionIsExact | features/installer/daemon/src/main.rs:172-190 | A start is admitted exactly for a resting job with a preflighted disk, its own phrase and faultless settings, and asks for that disk |
| InstallOutcomes.StartIsExact | features/installer/daemon/src/main.rs:172-202 | An admitted start leaves the next job number, Preparing and with its worker; a refused one changes nothing |
| InstallOutcomes.CancelIsExact | features/installer/daemon/src/main.rs:228-257 | A cancel is accepted exactly for the current job while it is Ready or Preparing, and changes its state only |
| InstallTheorems.PhasesNeverGoBack | features/installer/daemon/src/main.rs:300-358 | The phases of a job are crossed one after another, none twice |
| InstallTheorems.FailureIsRecordedAfterCleanup | features/installer/daemon/src/main.rs:381-394 | A failure is recorded in the phase of the last boundary reached, and after the storage boundary an unmount was attempted in between |
| InstallTheorems.WorkerFinishes | features/installer/daemon/src/main.rs:292-407 | Whatever else is called in between, 26 steps of its own end any worker |
| InstallWorker.RunSection | features/installer/daemon/src/main.rs:300-358 | One section on the shared state is the worker's step of the system: the next section, or the error path |
| InstallWorker.RunInstallWorker | features/installer/daemon/src/main.rs:292-407 | The whole worker, its sections, quiet exit, clean-up, failure and release, is a run of the step system that ends the worker, whatever tools, disks and arriving cancels do |
| JobStorage.ReadBounded | shared/execution/src/lib.rs:374-392 | The read loop keeps exactly the first `limit` delivered bytes and flags truncation exactly when more were delivered, or reports the read error |
| JobStorage.CaptureIgnoresChunking | shared/execution/src/lib.rs:374-392 | However the same output is cut into pieces, the capture is its first min(limit, n) bytes, truncated iff n > limit |
| JobStorage.NamesDoNotCollide | shared/execution/src/lib.rs:114-125 | Published names of validated ids coincide only for the same job and part, and never with a temporary name |
| JobStorage.TemporariesDoNotCollide | shared/execution/src/lib.rs:498-515 | Temporary names of different jobs or parts differ whatever the clock says |
| JobStorage.WriteIsAtomic | shared/execution/src/lib.rs:498-515 | After any fault a published file is the old one or the whole new one, and no other published file changes |
| JobStorage.WriteSucceedsExactly | shared/execution/src/lib.rs:498-515 | A write succeeds exactly when no operation fails and its temporary name is free |
| JobStorage.PersistStoresEverything | shared/execution/src/lib.rs:438-456 | A successful persist leaves metadata, stdout and stderr of that result in place |
| JobStorage.PageIsASlice | shared/execution/src/lib.rs:463-496 | A page is the requested slice, flagged at the end of the file, and empty past it |
| JobStorage.PageIsRefusedExactly | shared/execution/src/lib.rs:463-496 | A page is refused exactly for an invalid id, a size out of range, a missing file or an offset no seek accepts |
| JobStorage.PagesReassemble | shared/execution/src/lib.rs:463-496 | Pages of any allowed sizes, fetched until the end is flagged, terminate and give the file back |
| JobStorage.CapturedOutputArrives | shared/execution/src/lib.rs:374-496 | From the pipe to the client, on stdout and stderr: after a persist, paging returns the captured prefix byte for byte |
| JobStorage.JobStore.WriteAtomic | shared/execution/src/lib.rs:498-515 | The temporary file, its faults and the rename have the specified effect |
| JobStorage.JobStore.Persist | shared/execution/src/lib.rs:438-456 | Writes the three parts in order, stops at the first failure, and on success everything is stored |
| JobSafety.StepKeepsInv | shared/execution/src/lib.rs:658-829 | Every start, spawn result, cancel and worker section keeps the invariant of all cells, workers and files |
| JobSafety.OtherCellsSurvive | shared/execution/src/lib.rs:498-515 | A worker's step disturbs no other cell and no other job's stored files |
| JobSafety.SectionIsOk | shared/execution/src/lib.rs:229-310 | A worker's section keeps its own cell truthful: a status is published only for the result produced and, with a store, persisted |
| JobTheorems.StatusesFollowTheLifecycle | shared/execution/src/lib.rs:579-627 | In every reachable state a cell shows Queued, then Running, then one terminal status, or a beginning of that |
| JobTheorems.StepExtendsCell | shared/execution/src/lib.rs:579-605 | A step only appends to the history of unfinished cells, and a cancel is never taken back |
| JobTheorems.TerminalStatusIsFinal | shared/execution/src/lib.rs:607-627 | What `wait` returned stays the status through every later run |
| JobTheorems.TerminalStatusIsHonest | shared/execution/src/lib.rs:786-829 | Cancelled is reported only for a cancelled job, an error only with Failed, and otherwise the state of the result produced |
| JobExits.TerminalStatusTellsTheExit | shared/execution/src/lib.rs:229-310 | In every reachable state a terminal status tells what was seen of the child: cancelled before its start, stopped for a cancel, or its own exit with its code, its duration and the bounded captures of its two streams, truncated exactly if one of them was cut; no result exactly after a failed start, wait or read |
| JobExits.SuccessIsTheChildsOwn | shared/execution/src/lib.rs:296-308 | Without an error, Succeeded is shown exactly if the child ended by itself with success, Failed exactly if without, and the exit code is the child's |
| JobExits.WritesDecide | shared/execution/src/lib.rs:438-456 | A part that is written leads on to the next, and one that is not makes an error of the result |
| JobExits.WrittenResultIsPublished | shared/execution/src/lib.rs:800-819 | With all parts written the status is that of the result, without an error |
| JobExits.StartRegistersExactly | shared/execution/src/lib.rs:658-682 | Exactly a valid request under a new id is registered, queued and not cancelled; every other changes nothing |
| JobTheorems.PublishedMeansStored | shared/execution/src/lib.rs:800-819 | With a store, a terminal status without an error shows only when metadata and both logs of that result are in place and read back in full |
| JobTheorems.DuplicateStartChangesNothing | shared/execution/src/lib.rs:658-682 | A start under a registered id changes nothing |
| JobTheorems.FailedSpawnForgetsOnlyItself | shared/execution/src/lib.rs:683-698 | A failed spawn removes its own registration and no other |
| JobTheorems.CancelledJobsEnd | shared/execution/src/lib.rs:229-310 | A cancelled job is finished after at most nine steps of its own worker, whatever others do |
| JobRegistry.JobCoordinator.Start | shared/execution/src/lib.rs:658-698 | Registers a queued cell, refuses duplicates and invalid requests without change, forgets the cell when the spawn fails, and is the system's start and spawn result |
| JobRegistry.StartIsTwoSteps | shared/execution/src/lib.rs:658-698 | A start with the outcome of its spawn is two steps of the system, both without effect when it is refused |
| JobRegistry.JobCoordinator.Cancel | shared/execution/src/lib.rs:729-740 | Sets the flag of the named cell or reports the unknown job, and is the system's cancel |
| JobRegistry.JobCoordinator.Status | shared/execution/src/lib.rs:742-754 | Returns the current status of the system's cell for that id, or the unknown job |
| JobWorker.Supervise | shared/execution/src/lib.rs:275-285 | The supervision loop looks at the child first and at the flag second, and each turn is a step of the system |
| JobWorker.Collect | shared/execution/src/lib.rs:287-308 | Joining both captures gives the result, its state and truncation, or the read error |
| JobWorker.PersistRuns | shared/execution/src/lib.rs:438-456 | Persisting part by part as steps of the system is the store's persist, stopping at the same failure |
| JobWorker.RunJob | shared/execution/src/lib.rs:786-829 | The worker body with engine, supervision loop, store and status is a run of the step system; when it ends, Running and one terminal status were shown, and files and cell agree |
| ProvisionPlanning.SelectionIsExact | features/provision/domain/src/lib.rs:256-274 | Selection succeeds exactly when every entry is known and fits the profile, keeps first occurrences in order, and otherwise fails on the first entry that may not be admitted |
| ProvisionPlanning.SelectBundles | features/provision/domain/src/lib.rs:256-274 | The selection loop computes the specified selection |
| ProvisionPlanning.CheckedTotalIsExact | features/provision/domain/src/lib.rs:280-284 | The checked fold is the exact sum unless that exceeds 64 bits |
| ProvisionPlanning.DistinctTotalIsBounded | features/provision/domain/src/lib.rs:280-284 | Distinct catalog entries never add up to more than the catalog |
| ProvisionPlanning.EstimateNeverOverflows | features/provision/domain/src/lib.rs:280-288 | The estimate and the required space never overflow |
| ProvisionPlanning.CatalogIsSound | features/provision/domain/src/lib.rs:68-177 | The reviewed catalog is small enough and has no entry named like the Flathub step |
| ProvisionPlanning.PlanAcceptsExactly | features/provision/domain/src/lib.rs:251-307 | `EstimateOverflow` is unreachable, and a request is planned exactly when it names something, all entries are admitted, and disk and image suffice |
| ProvisionPlanning.PlanErrorsAreExact | features/provision/domain/src/lib.rs:251-307 | A refused request gets the error of the first check it fails: no bundles, the first entry not admitted, the missing disk space with its two numbers, the image |
| ProvisionPlanning.ImageFaultIsExact | features/provision/domain/src/lib.rs:290-307 | An image is missed or refused exactly when an environment is asked for; a selection without one needs none |
| ProvisionPlanning.PlanSplitsSelection | features/provision/domain/src/lib.rs:276-372 | A plan keeps first occurrences, splits them exactly into one operation or one external id each plus a leading Flathub step iff a Flatpak is selected, with distinct operation ids, distinct external ids and the exact sum |
| ProvisionPlanning.AcceptanceGrowsWithTheMachine | features/provision/domain/src/lib.rs:251-372 | More disk or a larger profile keeps an accepted request accepted with the same plan |
| ProvisionPlanning.PlansUseReviewedSources | features/provision/domain/src/lib.rs:307-362 | Every operation of a plan is the Flathub step, or the exact install command of its own bundle with the catalog's source, or the exact pull of the valid pinned image of the request |
| ProvisionPlanning.PinnedImagesHaveOneShape | features/provision/domain/src/lib.rs:414-428 | An image is accepted exactly when it is a name without white space, the marker and 64 hexadecimal digits |
| ProvisionPlanning.SplitSelection | features/provision/domain/src/lib.rs:307-362 | The loop over the selection builds the specified operations and external ids |
| ProvisionPlanning.MakePlan | features/provision/domain/src/lib.rs:251-372 | The planner by its loops computes the specified plan or error |
| ProvisionRuntime.StepKeepsInv | features/provision/daemon/src/main.rs:78-330 | Load, start, cancel, every worker step and a crash, with any write failing, keep memory and file consistent |
| ProvisionRuntime.CompletedIsAnExecutedPrefix | features/provision/daemon/src/main.rs:145-306 | In every reachable state, in memory and in the file, the completed ids are a duplicate-free prefix of the operation ids of the selection, each executed successfully for it |
| ProvisionRuntime.SuccessMeansEverythingRan | features/provision/daemon/src/main.rs:296-305 | Both finished phases mean that every operation of the selection ran; `succeeded` is shown exactly if nothing in the selection is external, `external-provider-required` exactly if something is |
| ProvisionRuntime.ExternalsDecideTheEnd | features/provision/daemon/src/main.rs:296-305 | In every reachable state a worker past its last operation ends with `succeeded` exactly if nothing in the selection is external |
| ProvisionRestarts.FinishesUnsaved | features/provision/daemon/src/main.rs:195-306 | A worker left to itself with the network up and every operation succeeding does every operation and ends with `succeeded` exactly if nothing in the selection is external |
| ProvisionRuntime.NetworkDecides | features/provision/daemon/src/main.rs:205-221 | A worker with something to run begins exactly when the network is connected |
| ProvisionRuntime.WaitingEnds | features/provision/daemon/src/main.rs:205-221 | Without the network it leaves, waiting, with the notice to connect |
| ProvisionRuntime.OutcomeDecides | features/provision/daemon/src/main.rs:256-294 | Only a successful operation leads to its record; each other outcome ends the worker with its own phase and notice |
| ProvisionRuntime.CancelIsShown | features/provision/daemon/src/main.rs:236-256 | A cancelled worker stops before its next operation and says so, any other announces and executes it |
| ProvisionRuntime.StartIsExact | features/provision/daemon/src/main.rs:152-193 | A start is accepted exactly when the service is idle, consent is given and the request is planned, and otherwise changes nothing |
| ProvisionRuntime.CancelIsExact | features/provision/daemon/src/main.rs:316-330 | A cancel marks the active request with that id and reaches no other |
| ProvisionRuntime.AtMostOneWorker | features/provision/daemon/src/main.rs:152-193 | At most one worker lives, the service is busy exactly while it does, and `running` needs one |
| ProvisionRuntime.LoadedServiceIsAtRest | features/provision/daemon/src/main.rs:78-101 | A restarted service comes up only if its state was written, claims nothing is running, and keeps selection and completed ids |
| ProvisionRuntime.ExecutesTheNextOperation | features/provision/daemon/src/main.rs:205-256 | Whatever is executed is the first operation not yet recorded, shown as current, and only after the network probe succeeded |
| ProvisionRuntime.RecordedWorkIsNeverRepeated | features/provision/daemon/src/main.rs:78-306 | Once recorded in memory and file, an operation never runs again for its selection, through any crashes, restarts, failed writes, cancels and repeated starts |
| ProvisionRuntime.FinishedSelectionRunsNothing | features/provision/daemon/src/main.rs:152-306 | Restarting a selection finished in memory and in the file executes nothing, through crashes and failed writes |
| ProvisionRestarts.FinishedInMemoryRunsNothing | features/provision/daemon/src/main.rs:145-306 | While the process lives, restarting a selection finished in memory executes nothing, even if no write ever succeeds |
| ProvisionRestarts.RestartingRunsNothingIff | features/provision/daemon/src/main.rs:78-306 | A selection finished in memory is never executed again by runs that ask only for it, crashes included, exactly if the file has it finished too |
| ProvisionRestarts.UnsavedWorkRunsAgain | features/provision/daemon/src/main.rs:145-193 | For every request with something to run a reachable finished state whose writes failed, and a run from it that crashes, reloads and executes again |
| ProvisionRestarts.ReviewedSelectionRunsAgain | features/provision/daemon/src/main.rs:145-193 | Such a state and run exist for the reviewed catalog |
| ProvisionRuntime.WorkerCountsDown | features/provision/daemon/src/main.rs:195-306 | Each step of the worker brings its end nearer, and the last frees the service |
| ProvisionRuntime.AcceptedCancelStops | features/provision/daemon/src/main.rs:316-330 | An accepted cancel tells the worker to stop wherever it is, also with an operation in flight |
| ProvisionRuntime.CancelBeginsNothingMore | features/provision/daemon/src/main.rs:236-264 | From then on, in any run without a new start, at most the operation in flight still ends, and nothing is executed when none is |
| ProvisionRuntime.CancelledRequestRunsAtMostOnce | features/provision/daemon/src/main.rs:236-330 | A cancel accepted in any reachable state, followed by any run without a new start, adds at most that one execution |
| ProvisionService.Runtime.Load | features/provision/daemon/src/main.rs:78-101 | A restarted service is the stored state with an interrupted run marked so, and comes up only if that could be written |
| ProvisionService.Runtime.Start | features/provision/daemon/src/main.rs:152-193 | Refuses while active; otherwise keeps completed ids only for the same selection and hands out a new request id |
| ProvisionService.Runtime.Cancel | features/provision/daemon/src/main.rs:316-330 | Cancels the active request with that id, else changes nothing |
| ProvisionService.Runtime.RunOperation | features/provision/daemon/src/main.rs:222-294 | One turn of the loop is a run of the step system: skip, stop, or announce, execute and record |
| ProvisionService.Runtime.RunPlan | features/provision/daemon/src/main.rs:195-306 | The whole worker, with its loop, is a run of the step system, whatever the network, the operations, cancels and writes do |
| UpdateJson.JsonEscape | features/system/updated/src/main.rs:115-134 | The escaping loop computes the specified text |
| UpdateJson.EscapedTextIsRead | features/system/updated/src/main.rs:115-134 | A reader of JSON strings (section 7 of RFC 8259) stops exactly at the closing quote and returns the text, for all strings |
| UpdateJson.EscapedTextIsPrintable | features/system/updated/src/main.rs:115-134 | No control character survives escaping |
| UpdateJson.PrintedPlanIsRead | features/system/updated/src/main.rs:97-113 | Decoding a printed plan with the reference decoder gives its operation, channel and arguments unchanged, for all arguments |
| UpdateJson.PrintedPlansDiffer | features/system/updated/src/main.rs:97-113 | No two plans print the same text |
| FirstBootFile.PairsAreRead | features/onboarding/firstboot/src/lib.rs:128-138 | Reading key-value lines back gives the printed pairs, for all pairs that fit on lines |
| FirstBootFile.EncodedConfigIsRead | features/onboarding/firstboot/src/lib.rs:128-138 | A line-and-key reader recovers all six fields of every valid configuration |
| FirstBootFile.EncodeIsInjective | features/onboarding/firstboot/src/lib.rs:128-138 | Two valid configurations with the same text are equal |
| FirstBootFile.MarkerIsTheEncoding | features/installer/daemon/src/main.rs:766-779 | The installer's marker is character for character the first-boot text of the same values |
| FirstBootFile.InstallerAcceptsLess | features/installer/domain/src/lib.rs:121-178 | The installer accepts exactly what first boot accepts, except the account name of the live session |
| FirstBootFile.MarkerIsRead | features/installer/daemon/src/main.rs:766-779 | Whatever the installer accepts is valid for first boot and read back from the marker |
| FirstBoot.ApplyPublishesOrNot | features/onboarding/firstboot/src/lib.rs:468-478 | Success publishes the whole readable text after the backend has applied it; failure publishes nothing; the backend is asked only while no file exists |
| FirstBoot.ApplySucceedsExactly | features/onboarding/firstboot/src/lib.rs:468-478 | Setup succeeds exactly if values and password are valid, nothing is published, the backend succeeds and every file operation works; a configuration counts as applied exactly if the backend was asked and succeeded, and its failure changes nothing |
| FirstBoot.ApplyRefusesExactly | features/onboarding/firstboot/src/lib.rs:468-478 | What is refused, and with which error, in the order of the checks |
| FirstBoot.FailedCommitLeavesLittle | features/onboarding/firstboot/src/lib.rs:228-278 | A commit succeeds exactly if every file operation works; a failed one keeps what is published and leaves at most its own temporary file, none if it could clean up |
| FirstBoot.ReadersSeeNothingOrAll | features/onboarding/firstboot/src/lib.rs:228-278 | Through failures, crashes and retries a reader finds the old entry or the whole text of an applied configuration |
| FirstBoot.CompletionIsFinal | features/onboarding/firstboot/src/lib.rs:213-235 | Once complete, the file never changes and the backend is never asked again |
| FirstBoot.InstalledSystemsStayConfigured | features/installer/daemon/src/main.rs:766-792 | A system the installer configured keeps the installer's values whatever first boot is asked |
| FirstBoot.FirstBootStore.Commit | features/onboarding/firstboot/src/lib.rs:228-278 | The commit steps, their faults and the clean-up have the specified effect on the directory |
| FirstBoot.FirstBootCoordinator.Apply | features/onboarding/firstboot/src/lib.rs:468-478 | Validation, password, completion, backend and commit in that order have the specified effect |
| WindowRegistry.RegistryStaysConsistent | features/desktop/compositor/src/main.rs:117-297 | Over every sequence of creations, deaths, redraws, keys, clicks and switches below id saturation, ids ascend in stack order, workspaces stay in 1 to 4 and the focused id names a window of the active workspace |
| WindowRegistry.StepKeepsInv | features/desktop/compositor/src/main.rs:117-297 | Each event keeps the registry invariant, up to the registration that uses the last id |
| WindowRegistry.SaturationRepeatsTheLastId | features/desktop/compositor/src/main.rs:117-127 | Registering keeps ids ascending exactly if no window has the next id; after saturation two registrations repeat it |
| WindowRegistry.IdsDoRepeat | features/desktop/compositor/src/main.rs:117-127 | Some sequence of events reaches the last id and makes two windows share it |
| WindowRegistry.WorkspacesPartition | features/desktop/compositor/src/main.rs:139-146 | The visible lists of the four workspaces partition the windows |
| WindowRegistry.OnWorkspaceIsExact | features/desktop/compositor/src/main.rs:139-146 | A visible list holds exactly the windows of its workspace, in stack order |
| WindowRegistry.RetainKeepsTheLiving | features/desktop/compositor/src/main.rs:129-137 | Pruning keeps exactly the windows with a living surface, in order |
| WindowRegistry.FocusedSurfaceIsExact | features/desktop/compositor/src/main.rs:148-163 | The keyboard goes to a live window of the active workspace, the focused one when it lives, and to nobody exactly when none is live |
| WindowRegistry.NewWindowGetsKeyboard | features/desktop/compositor/src/main.rs:117-163 | A newly created live window gets the keyboard |
| WindowRegistry.ClickedWindowGetsKeyboard | features/desktop/compositor/src/main.rs:191-217 | A click gives the keyboard to the topmost live visible window under the pointer |
| WindowRegistry.MissedClickChangesNothing | features/desktop/compositor/src/main.rs:191-217 | A click that hits no live visible window only prunes |
| WindowRegistry.PruningKeepsLiveFocus | features/desktop/compositor/src/main.rs:129-137 | Pruning keeps the focus of a window that lives, drops any other, and pruning again changes nothing |
| WindowRegistry.EventsChangeWhatTheyShould | features/desktop/compositor/src/main.rs:117-298 | A redraw is asked for exactly by new windows and switches, and only these change workspace or add windows |
| WindowRegistry.SwitchedWorkspaceGetsKeyboard | features/desktop/compositor/src/main.rs:290-298 | After a switch the keyboard goes to the topmost live window of the new workspace |
| WindowRegistry.Topmost | features/desktop/compositor/src/main.rs:148-163 | The reversed search finds a window of the workspace with no wanted one above it, or there is none |
| WindowRegistry.App.RegisterWindow | features/desktop/compositor/src/main.rs:117-127 | Appends a focused window on the active workspace under the next id |
| WindowRegistry.App.PruneWindows | features/desktop/compositor/src/main.rs:129-137 | Drops dead windows and a focus that names none |
| WindowRegistry.App.VisibleWindows | features/desktop/compositor/src/main.rs:139-146 | Prunes, then lists the windows of the active workspace |
| WindowRegistry.App.FocusedSurface | features/desktop/compositor/src/main.rs:148-163 | Prunes, then finds the focused window of the active workspace, or else its topmost one |
| WindowRegistry.App.FocusWindowAt | features/desktop/compositor/src/main.rs:191-217 | Focuses the topmost visible window under the pointer, if any |
| WindowRegistry.App.SwitchWorkspace | features/desktop/compositor/src/main.rs:290-298 | Clamps the workspace and focuses its topmost window |
| Workspaces.MappingKeepsComponents | features/studio/environment/src/lib.rs:240-269 | A host directory maps into the container exactly when it lies at or below the workspace by normal components, and then to `/workspace` and the same components |
| Workspaces.MappingIsInjective | features/studio/environment/src/lib.rs:240-269 | Directories with the same image have the same components |
| Workspaces.ContainerWorkingDirectory | features/studio/environment/src/lib.rs:240-269 | The component loop computes the specified mapping |
| Workspaces.MountHasFourFields | features/studio/environment/src/lib.rs:340-347 | A valid workspace cannot add an option to the mount argument |
| Workspaces.ResolveRelativeComponents | features/studio/workd/src/lib.rs:667-711 | The component loop computes the specified normalized path or error |
| Workspaces.ResolvingIsIdempotent | features/studio/workd/src/lib.rs:667-711 | The normal form has the components of the request, and normalizing it again changes nothing exactly if empty paths are allowed or the request is not one blank name; in that case it is refused as empty |
| Workspaces.ResolveIsExact | features/studio/workd/src/lib.rs:667-711 | A path is accepted exactly if it is relative, all its components are names, and it is not blank where empty paths are refused; otherwise the error is that of the first rule broken |
| Workspaces.InsideIsAPrefix | features/studio/workd/src/lib.rs:713-731 | Within a root are exactly the paths that go on from its components, and below it those that go further |
| Workspaces.NormalFormCanBeRefused | features/studio/workd/src/lib.rs:660-676 | With empty paths refused, a blank and a separator normalize to a blank, which is then refused |
| Workspaces.ResolvedStaysInside | features/studio/workd/src/lib.rs:713-731 | Joined to any absolute root, a normalized path stays within it, and strictly below it exactly when it is not empty |
| Paths.PushedNamesAreRead | features/studio/environment/src/lib.rs:251-262 | Names pushed one by one are read back as exactly the following components |

## Left out

- D-Bus signatures, polkit authorization, password reading and mutex poisoning: I/O without a property of its own.
- Processes, signals, `podman`, `bootc`, `sfdisk`, `lsblk` and the file system itself: their results are inputs of the steps.
- Symbolic links: `fs::canonicalize` is not modelled; the theorems on paths are about components and the root given.
- The hit test of the compositor: which surfaces are under the pointer is an input, so stacking offsets do not appear.
- UTF-8: lengths are counted in characters; on the texts the validations accept every character is one byte, so the limits agree.
- The texts of errors and diagnostics: rejection reasons are values of a datatype, and failure messages are inputs.
- Job paths: a job is named by its number instead of an object path.
- The disk that `prepare_target` resolves a second time: it is not tied to the disk validated at the boundary.
- `JobProtocol.ValidRequest`: the environment variables and the working directory of a request are not modelled.
- The serializer of job metadata and of the provisioning state: an arbitrary function, respectively the state itself.
- The waiting time of the supervision loop and the grace period of a cancellation: a loop turn is a step, a timeout an outcome.
- `ProvisionService.Runtime.Start`: the check and the setting of the active request are one step, as calls are dispatched one at a time.
- Display names and descriptions of bundles and operations, and the consent error: presentation and a single test.
- The planner and the runner are proved for every sound catalog, and the reviewed catalog is shown to be one.
- `Json.Decode`: numbers, booleans and insignificant white space are not read, as the printer never writes them.
- `WorkState` and its environment map, the build planner, hardware telemetry, release-channel parsing and the user interfaces: single tests and I/O that would only add easy members.
- `run_command_at`, `exec_command_at` and the other container commands: fixed argument lists around the mapped directory and the mount argument.
- `validate_payload_reference`: it looks only at the text after the last colon, so nothing about digests follows from it.
