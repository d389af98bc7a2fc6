# Verification of the plugin platform's control logic

This project models the deterministic control logic of the plugin platform in Dafny and proves what it is
for. Each module follows one component; each operation that changes state is a class method or a loop proved
against a specification, and the main theorems are about that specification: over every input, every run and
every interleaving.

| modules | component |
|---|---|
| `Sorting`, `CanonicalJson`, `CanonicalJsonProofs`, `CanonicalJsonReading`, `PlanHash`, `PlanReading` | the canonical text behind plan and review hashes |
| `Manifests`, `DependencyGraph`, `CycleReports`, `Resolver`, `ConsistentSubsets`, `IsolatedResolver`, `LostPlugins` | the dependency resolver |
| `LifecyclePlans`, `Execution`, `ExecutionStore`, `KubernetesStore`, `FileLock` | the leased, revision-numbered lifecycle execution and its two stores |
| `Runner`, `RunnerLoop`, `RunnerProgress` | the runner and the phase receipts of its adapter |
| `Installer`, `InstallerProofs`, `InstallerOutcomes`, `OutputJournal` | the installer's desired state and the journal around its output |
| `Admission`, `CircuitBreaker`, `LifecycleRegistry` | the gateway's two controllers and the plugin registry |
| `ClaimLoop`, `ErrorChain`, `SchemaBounds`, `Manager` | claiming rows, retrying transactions, bounding schemas, one manager run |

Some things one would expect of the code, or that its documentation promises, do not hold in general. Each is
stated as a concrete run or input, together with the exact condition under which it does hold:

- "The largest dependency-consistent subset" (packages/plugin-runtime/src/resolver.ts:441-448) is returned, for
  every list of manifests, exactly when no plugin rejected in the first round could have been kept with its
  required dependencies (`LargestExactlyWhenNothingLostAtOnce`; over all sub-lists the resolver accepts,
  `LargestAcceptedSubList`). Conflicts, optional dependencies and duplicate ids can break it (`LostPlugins`).
- The file lock keeps two processes apart exactly as long as no step takes a live lock away
  (`ExclusiveExactly`), and is then the atomic store (`FileStoreIsAtomic`); two processes that see one stale lock can both enter (`TwoBreakersBothEnter`).
- A lease granted until some time stays in force until then exactly when no commit gives it up by failing,
  finishing the plan or renewing for less (`LeaseHeldExactly`), and nothing but a lease in force keeps others out
  (`LeaseIsExactlyExclusivity`). A renewal that ends earlier lets others in (`ShorterRenewalGivesLeaseUp`).
- A breaker keeps track of its single probe exactly as long as no lease taken while it was closed completes
  beside one (`TrackedExactly`); otherwise two probes can be outstanding (`TwoProbesCanBeOutstanding`).
- The parser of executions does not look at completed phases beyond the end of the plan
  (`ParserAcceptsMoreThanThePlan`). The accepted executions that keep to their plan are exactly the succeeded
  ones and those with a next phase (`AcceptedKeepsToPlanExactly`); no stored record is another (`RecordMeaning`).

Not a promise of the source, but worth knowing: when there is a dependency cycle it is reported, though not
every plugin on it need be (`SomeCycleMembersAreNotReported`). A plugin is reported exactly when, as the walk
enters it, it gets back to itself or to the current path through plugins not entered yet (`ReportedExactly`);
and where no plugin has two dependencies that lead back to it, all are (`AllCycleMembersAreReported`).

`dafny verify dfyconfig.toml` checks the whole project. Times are integers (milliseconds). The digest, semver, the judgement of a release, the three renderings of a
state, clocks and the answers of hosts and databases are arbitrary functions.

## Model

| member | source | states |
|---|---|---|
| CanonicalJsonProofs.CanonicalForm | packages/plugin-installer/src/execution.ts:237-253 | two JSON values with integer numbers have the same canonical text if and only if they are equal up to key order and undefined members |
| CanonicalJsonProofs.CanonicalSelfDelimiting | packages/plugin-manager/src/manager.ts:128-139 | where a canonical text ends can be read off it: equal texts with arbitrary continuations come from values of equal meaning and have equal continuations |
| CanonicalJsonProofs.EscapeSelfDelimiting | packages/plugin-installer/src/execution.ts:237-253 | an escaped string, followed by its closing quote and anything else, determines the string, lone surrogates included |
| CanonicalJsonReading.ReadingInvertsWriting | packages/plugin-installer/src/execution.ts:237-253 | a reader of JSON gets every value back from its canonical text, up to key order and undefined members |
| CanonicalJsonReading.CanonicalIsReadBack | packages/plugin-manager/src/manager.ts:128-139 | the same where the text stands inside a larger one: the reader stops exactly where the value ends |
| CanonicalJsonReading.StringIsReadBack | packages/plugin-installer/src/execution.ts:237-253 | up to its closing mark a written string is read back as it was, every escape included |
| CanonicalJsonReading.KeysAscend | packages/plugin-installer/src/execution.ts:245-252 | an object's members are written in strictly ascending order of their keys |
| Sorting.LexLessExactly | packages/plugin-installer/src/execution.ts:247 | that order is by the first code unit in which two keys differ, a prefix coming first |
| PlanHash.PlanTextIsInjective | packages/plugin-installer/src/execution.ts:255-259 | two lifecycle plans share a hash input if and only if they are the same plan |
| PlanReading.PlanTextIsThePlan | packages/plugin-installer/src/execution.ts:237-259 | a reader of JSON finds in a plan's hash input exactly the plan: each field under its own name, with its own value |
| PlanHash.HashStandsForOnePlan | packages/plugin-installer/src/execution.ts:255-259 | two plans with one hash are the same plan, or make a collision of the digest |
| DependencyGraph.DependencyWalk.VisitNode | packages/plugin-runtime/src/resolver.ts:217-244 | the recursive visit over mutable sets changes them as the function `Visit` says |
| DependencyGraph.CyclesAreReported | packages/plugin-runtime/src/resolver.ts:217-256 | some plugin is reported as cyclic if and only if the graph has a cycle, and every reported plugin lies on one that is reported as a whole |
| DependencyGraph.EveryCycleIsHit | packages/plugin-runtime/src/resolver.ts:222-228 | every single cycle has two neighbouring plugins that are reported |
| DependencyGraph.OrderIsTopological | packages/plugin-runtime/src/resolver.ts:230-248 | without cycles the activation order lists every plugin once, after all of its present dependencies, optional ones included |
| DependencyGraph.SomeCycleMembersAreNotReported | packages/plugin-runtime/src/resolver.ts:222-228 | a graph in which a plugin on a cycle is not reported |
| CycleReports.ReportedExactly | packages/plugin-runtime/src/resolver.ts:220-244 | a plugin the walk enters is reported if and only if it gets back to itself or to the current path through plugins not entered yet |
| CycleReports.ReportsAreFinal | packages/plugin-runtime/src/resolver.ts:230-248 | once the walk has left a plugin, later visits do not change whether it is reported |
| CycleReports.AllCycleMembersAreReported | packages/plugin-runtime/src/resolver.ts:217-256 | where no plugin has two dependencies that lead back to it, exactly the plugins on cycles are reported |
| Resolver.IndexManifests | packages/plugin-runtime/src/resolver.ts:121-145 | the loop yields the index, its ids in the order they were met, and a duplicate issue for each later manifest of an id |
| Resolver.IndexHoldsTheFirst | packages/plugin-runtime/src/resolver.ts:130-140 | of several manifests with one id the index holds the first |
| Resolver.ResolveRelationships | packages/plugin-runtime/src/resolver.ts:154-271 | reports exactly the duplicate, dependency, conflict and cycle issues there are; compatible if and only if there are none, and then the order is that of the walk |
| Resolver.DeclaredAreReported | packages/plugin-runtime/src/resolver.ts:159-215 | the loop over manifests finds an issue if and only if some present plugin's own declarations give rise to it |
| Resolver.DeclaredIssuesAreThese | packages/plugin-runtime/src/resolver.ts:162-213 | for each issue a plugin's own declarations can give rise to, the exact condition |
| Resolver.ListingOrderIsIrrelevant | packages/plugin-runtime/src/resolver.ts:246-248 | the walk starts with the plugins in ascending order, and is the same in whatever order they are listed |
| Resolver.DeclarationOrderIsIrrelevant | packages/plugin-runtime/src/resolver.ts:230-238 | a plugin's dependencies are visited in ascending order, in whatever order they are declared |
| Resolver.ResolvePluginSet | packages/plugin-runtime/src/resolver.ts:280-439 | reports exactly the relationship issues and the issues of each manifest against the host, and accepts if and only if there are none |
| Resolver.HostFindingsAreThese | packages/plugin-runtime/src/resolver.ts:288-417 | for each issue, the exact condition on manifest and host under which it is reported |
| Resolver.NoHostFindingsMeansRunsOn | packages/plugin-runtime/src/resolver.ts:288-417 | a manifest has no issue against a host if and only if publisher, ranges, protocols, shared runtime, slots, permissions and egress policy all fit |
| IsolatedResolver.NamedIsRejected | packages/plugin-runtime/src/resolver.ts:461-485 | the plugins named by one round's issues are exactly the rejected ones |
| IsolatedResolver.NoIssuesMeansCompatible | packages/plugin-runtime/src/resolver.ts:280-439 | a plugin set resolves without issue if and only if it is consistent |
| IsolatedResolver.ResolveIsolated | packages/plugin-runtime/src/resolver.ts:449-493 | terminates; its order is that of the plugins the rejection rounds leave, its issues are exactly those of some round, its disabled plugins exactly those they name |
| ConsistentSubsets.FailingRoundShrinks | packages/plugin-runtime/src/resolver.ts:466-485 | every round that fails rejects a plugin that is present, so the loop ends |
| ConsistentSubsets.IsolatedIsCompatible | packages/plugin-runtime/src/resolver.ts:449-493 | what the rounds leave, if anything, is consistent, was given, and its order is an activation order |
| ConsistentSubsets.ClosureDecides | packages/plugin-runtime/src/resolver.ts:441-448 | a plugin belongs to some consistent subset if and only if its closure under required dependencies is one |
| ConsistentSubsets.LargestExactlyWhenNothingLostAtOnce | packages/plugin-runtime/src/resolver.ts:441-493 | for every list of manifests, the result contains every consistent subset if and only if no plugin rejected in the first round has a consistent required closure |
| ConsistentSubsets.LargestOfAllSubLists | packages/plugin-runtime/src/resolver.ts:441-493 | over all sub-lists, whichever manifest of a duplicated id they hold: the result contains every compatible one if and only if no choice of manifests lets a rejected plugin be kept with its required dependencies |
| ConsistentSubsets.UniqueIdsLeaveOneSelection | packages/plugin-runtime/src/resolver.ts:441-493 | with unique ids both conditions are the same |
| IsolatedResolver.LargestAcceptedSubList | packages/plugin-runtime/src/resolver.ts:441-493 | the activation order contains every plugin of every sub-list that resolves without issue, if and only if that condition holds |
| ConsistentSubsets.LargestWithoutSoftRelations | packages/plugin-runtime/src/resolver.ts:441-493 | without conflicts and optional dependencies the result is the largest consistent subset |
| LostPlugins.ConflictsLosePlugins | packages/plugin-runtime/src/resolver.ts:194-213 | on every ordinary host, two plugins one of which declares a conflict with the other, untrusted one: an accepted sub-list is not activated |
| LostPlugins.OptionalDependenciesLosePlugins | packages/plugin-runtime/src/resolver.ts:162-192 | the same with an optional dependency on the untrusted plugin in a version that does not match |
| LostPlugins.DuplicatesLosePlugins | packages/plugin-runtime/src/resolver.ts:130-140 | the same with one plugin given twice |
| LifecyclePlans.ValidatorsAgreeOnPhases | packages/plugin-installer/src/index.ts:292-343 | the installer's and the envelope's phase tables accept the same phase sequences for every plan |
| LifecyclePlans.ValidatorsDifferOnlyInVersions | packages/plugin-installer/src/execution.ts:195-235 | the envelope accepts exactly the plans the installer accepts whose versions and first schema fit the operation |
| LifecyclePlans.AcceptedPhasesAreDistinct | packages/plugin-installer/src/execution.ts:132-193 | no accepted plan runs a phase twice |
| LifecyclePlans.EnvelopeAcceptsExactly | packages/plugin-installer/src/execution.ts:132-235 | the envelope accepts exactly the plans whose phases come in the order of a plugin's life, are the ones their operation, image and data action call for, and whose versions, schemas and other parts belong to the operation |
| LifecyclePlans.AcceptedPhasesAscend | packages/plugin-installer/src/execution.ts:132-193 | the phases of an accepted plan come in the order of a plugin's life |
| LifecyclePlans.AcceptedPhasesOccur | packages/plugin-installer/src/execution.ts:132-193 | for each phase, exactly which accepted plans have it |
| Execution.ChangeShape | packages/plugin-installer/src/execution.ts:555-691 | every transition keeps the identity of the execution, moves the revision by one unless nothing changes, and completes at most the next phase |
| Execution.ChangeSucceedsExactly | packages/plugin-installer/src/execution.ts:491-691 | a change goes through if and only if its plan is the execution's, nothing is final yet, and the lease, the worker, the length and the phase are what that change asks for |
| Execution.OnlyAHolderGoesOn | packages/plugin-installer/src/execution.ts:491-518 | who renews, completes or fails an execution holds its lease at that time: nobody does once the lease has run out |
| Execution.RefusalsMean | packages/plugin-installer/src/execution.ts:491-691 | for each refusal, exactly when it is given; `lease_expired` exactly to the last holder from the end of the lease on |
| Execution.ChangeResult | packages/plugin-installer/src/execution.ts:555-691 | what each change leaves of status, reason, checkpoint and lease |
| Execution.ExecutionIsAcceptedExactly | packages/plugin-installer/src/execution.ts:394-477 | the parser accepts an execution if and only if envelope, identity, times, progress, lease and reason are sound and fit together |
| Execution.EnvelopeParsesExactly | packages/plugin-installer/src/execution.ts:280-352 | the parser accepts an envelope if and only if it has neither plan nor digest, or an accepted plan with its own digest |
| Execution.ChangeIsAccepted | packages/plugin-installer/src/execution.ts:394-477 | the parser accepts what a transition makes of an accepted execution, if and only if nothing changed or the time is not before the creation |
| Execution.ParserAcceptsMoreThanThePlan | packages/plugin-installer/src/execution.ts:445-468 | the parser also accepts an unfinished execution with more completed phases than its plan has |
| Execution.AcceptedKeepsToPlanExactly | packages/plugin-installer/src/execution.ts:445-468 | an accepted execution has no more completed phases than its plan if and only if it has a next phase or has succeeded |
| Execution.ChangeKeepsToPlan | packages/plugin-installer/src/execution.ts:611-640 | no transition leads there: completed phases stay within the plan |
| Execution.CreatedIsAccepted | packages/plugin-installer/src/execution.ts:520-553 | a new execution is accepted for its envelope, queued, at revision 0, with nothing completed |
| Execution.CreationSucceedsExactly | packages/plugin-installer/src/execution.ts:520-553 | an execution is created if and only if the envelope has a plan with its own digest and the id is opaque |
| Execution.CreatedEnvelopeParses | packages/plugin-installer/src/execution.ts:261-352 | the envelope created for a plan parses if and only if the plan is one the parser accepts |
| Execution.EveryExecutionCanBeFinished | packages/plugin-installer/src/execution.ts:555-640 | from every execution that is not terminal, once no other lease is in force, a worker can claim it and complete the whole plan |
| Execution.ManualInterventionArises | packages/plugin-installer/src/execution.ts:642-666 | manual intervention arises exactly from a failure after a completed migration that the plan cannot roll back, `failed` from every other failure |
| ExecutionStore.InitializeKeepsWellStored | packages/plugin-installer/src/executionStore.ts:94-153 | an initialization that writes stores a well-formed new record, and supersedes only a succeeded execution or the failed one whose revision was named |
| ExecutionStore.InitializeOutcome | packages/plugin-installer/src/executionStore.ts:94-153 | an initialization keeps the execution of the same plan; replaces one that succeeded, or the failed one whose revision is named, and archives it; refuses to replace any other |
| ExecutionStore.MutateShape | packages/plugin-installer/src/executionStore.ts:250-290 | a mutation that writes was made of the record with the expected revision by one transition, and keeps envelope and history |
| ExecutionStore.MutateOutcome | packages/plugin-installer/src/executionStore.ts:250-290 | a mutation is refused for another plan or revision; otherwise it is exactly the transition, kept if it changes nothing and written unless it is dated before the creation |
| ExecutionStore.UnusableInputsAreRefused | packages/plugin-installer/src/executionStore.ts:94-290 | no request gets past a plan file, a record or one of its last hundred predecessors that does not parse, and a mutation needs a record |
| ExecutionStore.EveryRecordIsWellStored | packages/plugin-installer/src/executionStore.ts:94-290 | every record of every run parses with its last hundred predecessors, has a bounded history and correctly classified failures |
| ExecutionStore.RecordMeaning | packages/plugin-installer/src/execution.ts:436-474 | for stored records: completed phases are a prefix of the plan, the next phase follows them, succeeded means the whole plan, manual intervention implies an irreversible migration |
| ExecutionStore.RevisionsCountCommits | packages/plugin-installer/src/executionStore.ts:262-285 | within one execution the revision grows by exactly the number of commits, and completed phases only grow at the end |
| ExecutionStore.StepUnderLease | packages/plugin-installer/src/execution.ts:491-518 | while a lease is in force, only its owner's requests go through |
| ExecutionStore.CommitsAreMadeUnderLease | packages/plugin-installer/src/execution.ts:491-518 | over whole runs, every renewal, completion and failure that is committed is made while the lease of the worker who makes it is in force |
| ExecutionStore.StepKeepsLease | packages/plugin-installer/src/execution.ts:555-666 | a commit under a lease leaves it in force until the same time if and only if it does not give it up: no failure, no last phase, no claim or renewal that ends earlier |
| ExecutionStore.LeaseHeldExactly | packages/plugin-installer/src/execution.ts:555-666 | over whole runs, a granted lease is in force until its end at every commit if and only if no commit gave it up |
| ExecutionStore.LeaseIsExclusive | packages/plugin-installer/src/execution.ts:555-609 | over whole runs, every commit before the end of a granted lease is its owner's, as long as none in between gave it up |
| ExecutionStore.LeasesAreDisjoint | packages/plugin-installer/src/execution.ts:555-609 | the lease of another owner starts no earlier than the first one ends, unless that was given up |
| ExecutionStore.LeaseIsExactlyExclusivity | packages/plugin-installer/src/execution.ts:491-518 | for a running record, only the owner's requests can commit before a time if and only if its lease is in force until then |
| ExecutionStore.ShorterRenewalGivesLeaseUp | packages/plugin-installer/src/execution.ts:599-609 | a claim or renewal that ends earlier than the lease in force lets any other worker claim from its end on |
| KubernetesStore.ClusterRefinesAtomicStore | packages/plugin-installer/src/kubernetesExecutionStore.ts:479-522 | for any interleaving of reads, conditional writes and crashes, the commits form a run of the atomic store and the ConfigMap holds the last of them |
| KubernetesStore.ClusterRecordIsWellStored | packages/plugin-installer/src/kubernetesExecutionStore.ts:208-259 | the record in the ConfigMap is well formed at any point of any run |
| KubernetesStore.CommitsStay | packages/plugin-installer/src/kubernetesExecutionStore.ts:600-663 | commits are never undone: the log of a later state extends that of an earlier one |
| KubernetesStore.Cluster.Replace | packages/plugin-installer/src/kubernetesExecutionStore.ts:600-663 | a write that goes through replaced exactly the record that was read; while that record is in force, a write goes through if and only if nobody commits at that moment |
| KubernetesStore.MutateRecord | packages/plugin-installer/src/kubernetesExecutionStore.ts:479-522 | the record found is the one in force after what the others did meanwhile; on success it was kept, or replaced by the one computed from it; an error is the atomic store's, or a conflict caused by another commit at the write |
| KubernetesStore.InitializeRecord | packages/plugin-installer/src/kubernetesExecutionStore.ts:302-366 | the same in at most three rounds, each but the last lost to a commit at its write; a conflict is reported only after three such commits |
| KubernetesStore.ClientsAreNeverStuck | packages/plugin-installer/src/kubernetesExecutionStore.ts:479-522 | a client that has read can always go on: exactly one of writing, being refused and returning is possible, and which |
| KubernetesStore.UncontendedWriteIsAccepted | packages/plugin-installer/src/kubernetesExecutionStore.ts:600-663 | a write based on the record in force is accepted |
| FileLock.ExclusionEndsExactlyHere | packages/plugin-installer/src/executionStore.ts:454-511 | one step keeps at most the lock's owner inside if and only if it does not take away the lock of a process that is inside |
| FileLock.ExclusiveExactly | packages/plugin-installer/src/executionStore.ts:454-511 | over whole runs, whoever is inside owns the lock throughout if and only if no step takes a live lock away |
| FileLock.FileStoreIsAtomic | packages/plugin-installer/src/executionStore.ts:250-290 | as long as no step takes a live lock away, one process is inside at a time, what it loaded is the record in force, and the commits form a run of the atomic store |
| FileLock.PromptProcessesTakeNoLiveLock | packages/plugin-installer/src/executionStore.ts:464-484 | with prompt critical sections and one breaker of stale locks at a time, no step takes a live lock away |
| FileLock.TwoBreakersBothEnter | packages/plugin-installer/src/executionStore.ts:464-484 | a run from an empty directory, with prompt processes, in which two processes are inside at once |
| FileLock.WhatIsPossible | packages/plugin-installer/src/executionStore.ts:454-511 | for each step of a process, exactly when it can take it |
| FileLock.ProcessCanCommit | packages/plugin-installer/src/executionStore.ts:250-290 | where there is no lock, or a stale one, a process can get in, make any change the store accepts, and leave no lock behind |
| Runner.NextKeepsInv | packages/plugin-installer/src/executionRunner.ts:138-217 | every step of every runner keeps receipts, checkpoint and the runners' copies in step |
| Runner.ReceiptsFollowTheCheckpoint | packages/plugin-installer/src/composeExecutionAdapter.ts:331-393 | under crashes, takeovers and retries: completed phases have receipts, and receipts are for completed phases or the next one |
| Runner.WorkIsChosenInOrder | packages/plugin-installer/src/composeExecutionAdapter.ts:331-336 | a phase found without a receipt is at that moment the next one of the plan, and all earlier phases have receipts |
| Runner.WorkStartsInOrder | packages/plugin-installer/src/composeExecutionAdapter.ts:336-393 | when its work begins, however much later, all earlier phases of the plan still have receipts |
| Runner.RoundsAreBounded | packages/plugin-installer/src/executionRunner.ts:138-217 | one call goes round its loop at most once per phase that was left |
| Runner.StoreAgrees | packages/plugin-installer/src/executionStore.ts:250-290 | for a well-formed record the runner's store call succeeds with an execution if and only if the atomic store's mutation does |
| RunnerProgress.EveryRunCanBeFinished | packages/plugin-installer/src/executionRunner.ts:98-218 | from every state a run can reach, at any time no other worker's lease is in force, a worker can take the execution over and complete the plan |
| RunnerProgress.RoundIsPossible | packages/plugin-installer/src/executionRunner.ts:138-217 | a runner with the lease in hand can complete the next phase |
| RunnerProgress.WorkIsPossible | packages/plugin-installer/src/composeExecutionAdapter.ts:331-393 | it then begins the work of the phase if and only if there is no receipt for it |
| RunnerLoop.Deployment.ExecutePhase | packages/plugin-installer/src/composeExecutionAdapter.ts:331-393 | a phase with a receipt is not worked on again; otherwise its work is begun and a receipt written if it does not throw |
| RunnerLoop.Deployment.Run | packages/plugin-installer/src/executionRunner.ts:98-218 | never returns a running execution; begins the work of the phases without receipts in plan order and of no others; unhindered, it finishes: it gets through all pending work and succeeds if and only if none of it is broken, and otherwise stops at the first phase that throws and fails; another worker's lease in force is answered by `lease_held` with nothing changed |
| RunnerLoop.Deployment.Round | packages/plugin-installer/src/executionRunner.ts:138-217 | one round renews, works on the next phase unless it has a receipt, and completes it or gives up; a phase that outlasts its lease leaves the execution queued |
| RunnerLoop.Deployment.GiveUp | packages/plugin-installer/src/executionRunner.ts:168-191 | a phase that throws fails the execution, or has it recovered if the lease ran out meanwhile |
| RunnerLoop.Deployment.Acquire | packages/plugin-installer/src/executionRunner.ts:111-136 | recovers an expired lease and claims what is free; refused, with nothing changed, while another worker's lease is in force |
| RunnerLoop.LegalChangeGoesThrough | packages/plugin-installer/src/executionStore.ts:250-290 | alone, the store makes every legal change not dated before the creation, and no other |
| InstallerProofs.ResolvesIsTheResolversVerdict | packages/plugin-installer/src/index.ts:842-869 | the installer's relationship check is the resolver's verdict on the records' manifests, in any order |
| InstallerProofs.UpgradePlanIsAccepted | packages/plugin-installer/src/index.ts:702-739 | every upgrade plan is one the execution envelope accepts |
| InstallerProofs.RollbackPlanIsAccepted | packages/plugin-installer/src/index.ts:741-777 | every rollback plan is one the execution envelope accepts |
| InstallerProofs.UninstallPlanIsAccepted | packages/plugin-installer/src/index.ts:797-823 | every uninstall plan is one the execution envelope accepts |
| InstallerProofs.CommandKeepsInv | packages/plugin-installer/src/index.ts:881-1048 | every operation keeps records and archives well formed, both sets resolved, and history and archives bounded |
| InstallerProofs.ReachableIsSound | packages/plugin-installer/src/index.ts:881-1048 | every state reachable from the empty one satisfies the invariant, and its revision is the number of operations |
| InstallerProofs.ReachableIsParsedUnchanged | packages/plugin-installer/src/index.ts:395-524 | the parser returns every reachable state unchanged, both validators accept its plan, archives hold at most 3 and the history at most 1000 entries |
| InstallerProofs.RequiredPluginsAreEnabled | packages/plugin-installer/src/index.ts:862-869 | an enabled plugin finds its required dependencies enabled in versions it admits |
| InstallerProofs.OthersAreUntouched | packages/plugin-installer/src/index.ts:881-1048 | an operation leaves every other plugin and its archive as it was |
| InstallerProofs.OperationsAreDescribed | packages/plugin-installer/src/index.ts:679-1048 | plan and newest history event name the operation, the data action of the command, its time, and the versions and schemas the plugin really had before and has after; only enabling and disabling switch a plugin, and a new one is off |
| InstallerProofs.InstallForgetsTheArchive | packages/plugin-installer/src/index.ts:881-909 | a freshly installed plugin cannot be rolled back to an earlier installation |
| InstallerProofs.RollbackUndoesUpgrade | packages/plugin-installer/src/index.ts:911-986 | right after an upgrade, a rollback succeeds if and only if the upgrade's plan supports it, restores every plugin exactly, and can fail only for its migration |
| InstallerProofs.RollbackUndoesRollback | packages/plugin-installer/src/index.ts:947-986 | a second rollback brings the newer version back if and only if the first one changed no data schema |
| InstallerProofs.EnableUndoesDisable | packages/plugin-installer/src/index.ts:988-1015 | enabling right after disabling always succeeds and restores every plugin |
| InstallerOutcomes.EnablementSwitches | packages/plugin-installer/src/index.ts:988-1015 | enabling or disabling sets the flag to what was asked for and changes nothing else of any plugin |
| InstallerOutcomes.CommandSucceedsExactly | packages/plugin-installer/src/index.ts:663-1048 | a command goes through if and only if presence, storage layout, schema and archive allow it and both plugin sets it leads to resolve; then the plugins are what was asked for |
| InstallerOutcomes.RefusalsMean | packages/plugin-installer/src/index.ts:663-1048 | for each refusal, exactly when it is given |
| InstallerOutcomes.CommandResult | packages/plugin-installer/src/index.ts:871-1048 | what becomes of everything else: the archive keeps the three newest predecessors, the history the newest thousand events, the revision counts, mappings stay |
| InstallerOutcomes.PlansFollow | packages/plugin-installer/src/index.ts:679-823 | the plan says truly whether there is a way back, which image migrates the data, and whether the plugin has to be stopped or started |
| InstallerOutcomes.ParserAcceptsExactly | packages/plugin-installer/src/index.ts:395-524 | the parser accepts a state if and only if mappings, plan, every record and archive are sound and both plugin sets resolve |
| InstallerOutcomes.RecordFitsExactly | packages/plugin-installer/src/index.ts:568-587 | a record is accepted if and only if ids, versions, policy and schema agree, grants are distinct, cover what is required and are declared, and the path is relative without a parent segment |
| InstallerOutcomes.NoParentSegmentExactly | packages/plugin-installer/src/index.ts:244-256 | looking for `..` between slashes is splitting the path and looking for it among the segments |
| OutputJournal.OutputDirectory.WriteOutputSnapshot | packages/plugin-installer/src/cli.ts:876-943 | it completes, throws or dies exactly as its file operations do; when it completes, the four files are the renderings and the state and nothing else has changed |
| OutputJournal.OutputDirectory.WriteOutputs | packages/plugin-installer/src/cli.ts:836-874 | success, exactly when there was no journal and no operation failed, means the new state is on disk completely; after an error the directory stands for the previous one, put back completely when one operation threw; after a crash for one of the two |
| OutputJournal.OutputDirectory.Recover | packages/plugin-installer/src/cli.ts:945-967 | a journal whose state is accepted is made up for if and only if no operation fails, any other is left alone; recovery never changes the state the directory stands for, and leaves no journal when it completes |
| OutputJournal.OutputDirectory.Invoke | packages/plugin-installer/src/cli.ts:1550-1708 | one invocation completes if and only if its command gives a state and no operation fails, and dies if and only if one of them is its last |
| OutputJournal.OutputDirectory.InvokeAll | packages/plugin-installer/src/cli.ts:1550-1708 | over any number of invocations that throw or die anywhere, each has taken effect completely or not at all, and completes if and only if its command gives a state and none of its operations fails |
| OutputJournal.Formats.RemovingTheJournalSettles | packages/plugin-installer/src/cli.ts:860-865 | once the four files are complete, removing the journal is what commits the state |
| Admission.Controller.RemoveExpiredBuckets | packages/plugin-runtime/src/gateway.ts:344-351 | removes exactly the buckets whose window is over |
| Admission.Controller.Acquire | packages/plugin-runtime/src/gateway.ts:260-328 | decides as a count over everything ever admitted and every lease not yet released decides, and keeps all caps |
| Admission.AdmittedExactly | packages/plugin-runtime/src/gateway.ts:284-310 | a request is admitted if and only if both its keys are below their caps in the current window and operation and buckets have room |
| Admission.TrackedAreTheCharged | packages/plugin-runtime/src/gateway.ts:330-351 | the keys tracked when a request is decided on are exactly those charged in the current window |
| Admission.SubjectsAreShared | packages/plugin-runtime/src/gateway.ts:266-277 | requests share a bucket if and only if plugin, operation, tenant and subject are the same; without a tenant it is the deployment's |
| Admission.Controller.Release | packages/plugin-runtime/src/gateway.ts:315-327 | releases one lease once; the counter stays the number of outstanding leases |
| Admission.AdmittingKeepsCaps | packages/plugin-runtime/src/gateway.ts:260-328 | no aligned window admits more than its cap for a key |
| Admission.AnyIntervalAdmitsTwiceTheCap | packages/plugin-runtime/src/gateway.ts:260-328 | any interval of one window's length admits at most twice the cap |
| Admission.LiveBucketsAreCurrent | packages/plugin-runtime/src/gateway.ts:330-351 | after expiry every bucket is the current window's and none that is needed is missing |
| Admission.ReleasingKeepsCounters | packages/plugin-runtime/src/gateway.ts:315-327 | a release keeps every operation's counter equal to its outstanding leases |
| CircuitBreaker.NextKeepsInv | packages/plugin-runtime/src/gateway.ts:146-213 | a circuit that is not open has fewer failures than the threshold and no probe; a probe in flight is an outstanding lease; tracked circuits stay within their limit |
| CircuitBreaker.OpenStaysOpen | packages/plugin-runtime/src/gateway.ts:215-225 | an open circuit is neither evicted nor opened earlier until one of its leases succeeds |
| CircuitBreaker.CooldownIsKept | packages/plugin-runtime/src/gateway.ts:146-180 | after opening, no lease is granted before the cooldown ends unless an outstanding lease succeeds |
| CircuitBreaker.GrantedExactly | packages/plugin-runtime/src/gateway.ts:146-180 | a lease is granted if and only if the key can be tracked and its circuit is closed, or cooled down without a probe; it is a probe if and only if the circuit is open |
| CircuitBreaker.OpensExactly | packages/plugin-runtime/src/gateway.ts:187-213 | a circuit opens if and only if a probe of it fails or its failures reach the threshold |
| CircuitBreaker.FailuresAreCounted | packages/plugin-runtime/src/gateway.ts:187-213 | over whole runs, a circuit counts exactly the failures since the breaker last forgot it |
| CircuitBreaker.CompletedMeans | packages/plugin-runtime/src/gateway.ts:187-213 | completing a lease ends it once; a success forgets the circuit, a failure is counted in it, and no other circuit changes |
| CircuitBreaker.AcquireKeepsOthers | packages/plugin-runtime/src/gateway.ts:146-225 | an acquisition leaves the other circuits alone, but for the longest untouched closed one when a new one needs its place |
| CircuitBreaker.TrackIsLostExactlyHere | packages/plugin-runtime/src/gateway.ts:187-213 | a call keeps every outstanding probe the single one of an open circuit that knows it if and only if it does not complete a lease taken while closed beside a probe of the same operation |
| CircuitBreaker.TrackedExactly | packages/plugin-runtime/src/gateway.ts:181-213 | over whole runs, the same if and only if |
| CircuitBreaker.AtMostOneProbe | packages/plugin-runtime/src/gateway.ts:181-213 | at most one probe of an operation is outstanding as long as no lease taken while closed completes beside one |
| CircuitBreaker.TimelyCallersGetOneProbe | packages/plugin-runtime/src/gateway.ts:170-213 | if every lease taken while closed is completed before the cooldown ends, at most one probe of an operation is outstanding |
| CircuitBreaker.LateFailureAllowsSecondProbe | packages/plugin-runtime/src/gateway.ts:187-205 | in any circuit, after a late failure beside a probe and another cooldown a second probe is granted |
| CircuitBreaker.TwoProbesCanBeOutstanding | packages/plugin-runtime/src/gateway.ts:146-213 | a run from an empty breaker to two outstanding probes |
| CircuitBreaker.Controller.EvictClosedState | packages/plugin-runtime/src/gateway.ts:215-225 | evicts a closed circuit touched no later than any other, or nothing if all are open |
| CircuitBreaker.Controller.Acquire | packages/plugin-runtime/src/gateway.ts:146-186 | the call is one step of the breaker and keeps its invariant |
| CircuitBreaker.Controller.Complete | packages/plugin-runtime/src/gateway.ts:187-213 | completing a lease is one step of the breaker; completing it again changes nothing but the clock |
| LifecycleRegistry.ReplaySplits | packages/plugin-runtime/src/lifecycle.ts:296-300 | replaying a prefix of the log and then the rest is replaying the whole |
| LifecycleRegistry.RevisionCountsEvents | packages/plugin-runtime/src/lifecycle.ts:147-261 | a plugin is known if and only if the log mentions it, and its revision is its event count minus 1 |
| LifecycleRegistry.InactivePluginsHaveNoTenants | packages/plugin-runtime/src/lifecycle.ts:185-191 | tenant sets are empty in discovered, rejected, installed_disabled, enabling and removed |
| LifecycleRegistry.StagingIsNeverSkipped | packages/plugin-runtime/src/lifecycle.ts:65-87 | beyond discovered, rejected and removed, a plugin was staged after its last discovery |
| LifecycleRegistry.EnteredFromExactly | packages/plugin-runtime/src/lifecycle.ts:65-87 | the table of transitions, read from where each state can be entered |
| LifecycleRegistry.RemovalIsAlwaysPossible | packages/plugin-runtime/src/lifecycle.ts:65-87 | from every state a plugin can be removed, in a stated number of transitions and no fewer |
| LifecycleRegistry.TenantsComeFromTheLog | packages/plugin-runtime/src/lifecycle.ts:207-247 | a tenant is enabled if and only if the log enables it and nothing later withdraws it |
| LifecycleRegistry.PluginLifecycleRegistry.Discover | packages/plugin-runtime/src/lifecycle.ts:115-145 | a new plugin starts discovered at revision 0 and is logged; replaying the log still gives the registry |
| LifecycleRegistry.PluginLifecycleRegistry.Transition | packages/plugin-runtime/src/lifecycle.ts:147-205 | each error exactly under its condition; otherwise the record, its tenants and the log change as stated, and the log still rebuilds the registry |
| LifecycleRegistry.PluginLifecycleRegistry.SetTenantEnabled | packages/plugin-runtime/src/lifecycle.ts:207-247 | each error exactly under its condition; otherwise one tenant is added or removed and logged |
| LifecycleRegistry.PluginLifecycleRegistry.SetEmergencyDisabled | packages/plugin-runtime/src/lifecycle.ts:249-261 | sets the flag, and logs it exactly when it changes |
| LifecycleRegistry.PluginLifecycleRegistry.IsExecutionAllowed | packages/plugin-runtime/src/lifecycle.ts:263-279 | what is allowed to run was staged since its last discovery and, for tenant scope, enabled for the tenant in the log |
| LifecycleRegistry.PluginLifecycleRegistry.AuditEvents | packages/plugin-runtime/src/lifecycle.ts:296-300 | the returned events complete a replay that stopped at the given sequence number |
| ClaimLoop.CandidateWindow | packages/backend-host/src/plugins/pluginDatabaseLock.ts:101-113 | a limit from 1 to 400 gives four times the limit, but at most 400; any other is refused |
| ClaimLoop.WantedAreTheEligible | packages/backend-host/src/plugins/pluginDatabaseLock.ts:44-50 | the simple form: exactly the lockable eligible rows the candidates name, each once |
| ClaimLoop.ClaimTransaction.LockClaimCandidates | packages/backend-host/src/plugins/pluginDatabaseLock.ts:51-99 | the chunked loop returns the first `limit` rows of the simple form, and locks no eligible row it does not claim |
| ClaimLoop.ClaimTransaction.FillChunk | packages/backend-host/src/plugins/pluginDatabaseLock.ts:71-78 | a chunk is the next distinct candidates, as many as remain or all there are |
| ErrorChain.Search | packages/backend-host/src/plugins/pluginDatabaseTransaction.ts:81-159 | terminates on cyclic object graphs, and finds the code if and only if a reachable object carries it |
| ErrorChain.ReachableExactly | packages/backend-host/src/plugins/pluginDatabaseTransaction.ts:81-159 | reachable is what was thrown, and what the `driverError`, `cause` or `originalError` of something reachable is |
| ErrorChain.RetryableMeans | packages/backend-host/src/plugins/pluginDatabaseTransaction.ts:26-159 | for each database, the codes by which a reachable object asks for another attempt |
| ErrorChain.RunTransaction | packages/backend-host/src/plugins/pluginDatabaseTransaction.ts:26-66 | stops at the first success, final error or last attempt allowed (8, 5 or 1 by database); every earlier attempt failed retryably; the final throw is never reached |
| SchemaBounds.CheckSchema | packages/plugin-runtime/src/jsonSchema.ts:120-171 | the stack loop accepts exactly the draft 2020-12 objects with at most 20000 nodes, depth at most 64 and local references only |
| SchemaBounds.BoundedMeans | packages/plugin-runtime/src/jsonSchema.ts:120-171 | that is: the draft is declared, there are at most 20000 values, each lies at most 64 levels deep, and every reference in every object begins with a hash sign |
| SchemaBounds.ObjectAccounts | packages/plugin-runtime/src/jsonSchema.ts:154-169 | pushing the entries of an object keeps node count and verdict those of the object |
| Manager.ManagerPlanIsAccepted | packages/plugin-manager/src/manager.ts:177-227 | every plan the manager makes is accepted by both plan validators |
| Manager.ManagerPlanFollows | packages/plugin-manager/src/manager.ts:177-227 | there is a plan if and only if an upgrade has an edge from the installed version, and it says what it takes and whether it can be undone |
| Manager.NativePluginManager.Prepare | packages/plugin-manager/src/manager.ts:444-489 | fails exactly when there is no plan or the unexpired stored review is not of this plan; otherwise the review is the stored one while it counts, or a new one that says what was found and is approvable if and only if nothing blocks |
| Manager.NativePluginManager.AwaitDecision | packages/plugin-manager/src/manager.ts:529-565 | reads approval until it is answered, at most as often as the limit says, renewing the lease in between; and for each decision, exactly the answer, clock or failure it comes from |
| Manager.NativePluginManager.RunOnce | packages/plugin-manager/src/manager.ts:406-646 | executes if and only if the claim leads to an approvable review that is published with the lease retained and approved in time, once, and only that plan; without a stored review that counts, nothing was found to block the release; exactly one observation unless idle or waiting; when a host call throws, the run ends there with all of this true of what was done |
| Manager.NativePluginManager.ExecuteAndReport | packages/plugin-manager/src/manager.ts:584-646 | the approved plan is executed once, and the run reports what came of it |
| Manager.NativePluginManager.Conclude | packages/plugin-manager/src/manager.ts:529-646 | the plan is executed if and only if an approval of it arrives in time; a rejection, or an answer about something else or too late, is reported as such |
| Manager.NativePluginManager.Decide | packages/plugin-manager/src/manager.ts:490-528 | a review that is not approvable ends in a blocked run, and without the lease the manager leaves it at the review |
| Manager.BlockingReasonMeans | packages/plugin-manager/src/manager.ts:494-499 | a blocked run gives the reason of the first finding that has one |
| Manager.NativePluginManager.Serve | packages/plugin-manager/src/manager.ts:417-489 | either the release cannot be had, installed or planned, and the run fails for that reason, or its one review is decided on |
| Manager.ExecutionIsAuthorized | packages/plugin-manager/src/manager.ts:542-600 | an execution right after a valid approval of a published review is an authorized one |

## Left out

- Subprocesses, Docker, kubectl, Helm and registries, file permissions and symlinks, HTTP, React and command-line parsing: input and output around the logic modelled here.
- SHA-256 and signatures: the digest is an arbitrary function; `PlanTextIsInjective` says what remains is its freedom from collisions. `verifyPluginInstallInputV1` enters as the predicate `VerifiedRecord`.
- Schemas of manifests, intents and approvals: the facts needed are predicates (`MigrationIsWellFormed`, `IntentIsWellFormed`, unique keys of JSON objects). Regular expressions for ids, versions and references are not checked, except opaque ids and digests of executions.
- Numbers that are not integers or beyond the safe range, and timestamps that do not parse.
- The order of issues: the source sorts them by locale; here a list of issues is compared as a set, and an installer's relationship error carries no particular code.
- The observation file, the deployment files and the key pair written beside the snapshot; an `unlink` that reports failure after it has removed the journal. Renderings are functions of the state: environment variables that change between invocations are not modelled.
- Which error code a damaged stored record raises. The file store refuses a history of more than 100 entries where the cluster store cuts it; every stored record has at most 100 (`EveryRecordIsWellStored`), so the model cuts.
- The local mirror of the cluster record and kubectl failures: a client whose command fails is one that stops.
- The manifests of registry records: the audit log does not record a replacement manifest, so they cannot be rebuilt from it.
- Plan and state files without `dataSchemaVersion`, filled in by the parser for older files.
- Supersession by another execution id in the runner model: `Runner` is about one execution.
- CircuitBreaker.Controller.EvictClosedState: among equally old closed circuits the source takes the first inserted; the model takes any.
- RunnerLoop.Deployment.Run: is about one runner alone and leaves out lease renewals during a phase; both are in `Runner`.
- LifecyclePlans.ValidatorsDifferOnlyInVersions: the envelope's check that versions are semantic versions, and both validators' checks of plugin id and migration image against their patterns, are left out.
- ConsistentSubsets.LargestWithoutSoftRelations: asks for unique ids, because with a duplicated id the result is not the largest (`DuplicatesLosePlugins`).
- CycleReports.AllCycleMembersAreReported: one direction; cycles that share plugins may or may not be reported completely, depending on the order of the walk, which `ReportedExactly` decides for each plugin.
- Manager.NativePluginManager.RunOnce: an observation whose publication throws counts as not made, though the host may have received it.
- Explicit `nowMs` arguments of the gateway's controllers, which let time go backwards.
- The random part of the retry delay, and waiting as such.
