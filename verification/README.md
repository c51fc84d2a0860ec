# Verified model of ghostgc

ghostgc is a daemon that decides whether a process, a cache file or a Git worktree has been abandoned, and acts only through
short-lived approvals. This project models its stateful core in Dafny and proves what its conclusions and actions mean over
whole runs: any sequence of scans, failed scans, restarts, crashes, database refusals and foreground steps.

The whole project is checked with `dafny verify dfyconfig.toml`.

## What is modelled

| part | modules |
|---|---|
| Process tree, session roots, ownership | `ProcessTree`, `CodexRoots`, `CodexMeaning`, `RootElection`, `Ownership`, `OwnershipRecords` |
| Process evidence: deltas, classification, the daemon's memory over a run | `Activity`, `Classification`, `EvidenceRun`, `EvidenceMeaning`, `EvidenceDaemon` |
| Cache observation and settling | `CacheProvider`, `CacheOwnership`, `CacheSettling` |
| Cache quarantine, restoration and two-phase purge | `CacheFs`, `CacheLedger`, `CacheProtocol`, `CacheAuthority`, `CacheSlots`, `CacheSteps`, `CacheCustody`, `CacheOutcomes`, `CacheLane` |
| Worktree inactivity | `Worktree` |
| Policy decisions, cooldowns and automatic actions | `Policy`, `PolicyDecisions` |
| Revalidation of a process action and its gate | `ProcessActions` |
| Retention, and retention as the policy run sees it | `Retention`, `RetentionFates`, `RetainedDecisions` |
| Bounded service log, log following, link removal | `ServiceLog`, `LogFollow`, `LinkFinalizer` |

Instants are whole nanoseconds, confidences are reals, digests and approval bindings are injective datatype values, and fresh
tokens, action ids and secrets are the number of the step that draws them. Kernel samples, provider listings, clocks and the
success or failure of each database, filesystem and system call are parameters of the step that meets them.

Code that changes things in place is a class or a looping method proved against a specification function (`EvidenceDaemon.Daemon`,
`Ownership.Reconciler`, `CacheSettling.Scanner`, `CacheFs.Fake`, `CacheLane.CacheLane`, `Worktree.Inventory`, `ProcessActions.ActionGate`,
`Retention.Store`, `ServiceLog.Writer`, `LinkFinalizer.Checkout`); the theorems over runs are about those specification functions.

What the specification functions decide is in turn stated in terms of what was observed, stored and configured, without them: every
verdict of a scan, an observation or an evaluation, every gate of an approval and every row that a step writes or a pass removes has its
exact condition (`EvidenceMeaning`, `CacheSteps`, `CacheOwnership`, `PolicyDecisions`, `OwnershipRecords`, `RetentionFates`,
`CodexMeaning`, and the lemmas named `…Exactly` and `…Iff` of the other modules).

## Where the code promises less than one would guess

Each of these is stated with the exact condition under which the promise does hold; where a lemma is named for the failure itself, it
gives a concrete input or run.

- The child lists use every entry of a snapshot, the lookup only the last one of a PID. The two describe one relation exactly when
  every intact entry agrees with the lookup of its PID, and then ancestors and descendants are converse; where a PID repeats they can
  differ (`ProcessTree.LinksMatchIffEntriesAgree`, `ProcessTree.AncestorsAndDescendantsAreConverse`,
  `ProcessTree.RepeatedPidBreaksTheConverse`). The comment on `Ancestors` speaks of intact or reparented links; the code follows
  intact ones only, and so does the model.
- Root shadowing can lose a session: a cycle of equally old parents shadows both roots, and a candidate 129 levels below its kept root
  is given no session (`CodexRoots.ParentCycleLosesBothRoots`, `CodexRoots.DeepTreeLosesCandidate`). Whatever a snapshot lets be
  collected, neither can happen to a process exactly when on the way up from it the processes observed in detail are met in order,
  each below its own ancestors (`CodexRoots.KeptRootIffInOrder`, `CodexRoots.SessionIffInOrder`); with all processes observed in detail
  that means that the links above it end within 128 (`CodexRoots.InOrderIffGrounded`). The nearest root
  above a shadowed candidate may be another session's (`CodexRoots.NearestRootMayBeAnotherSession`,
  `CodexRoots.OwnSessionIffOwnRootIsNearest`).
- The original parent of a process survives a restart exactly when its stored row is not marked exited, and one scan that cannot
  read a live process marks it so; over a run it never changes exactly when no daemon starts while it is so marked (`Ownership.FactsNeverChange`, `Ownership.RestartKnowsIffLive`, `Ownership.MissedScanLosesTheOriginalParent`).
- A failed cache or worktree scan breaks every stability window only if the failure itself is recorded; wherever in a run it happens,
  an unrecorded one changes no later conclusion (`CacheSettling.UnrecordedFailureGoesUnnoticed`, `CacheSettling.FailureAnywhereIff`,
  `Worktree.UnrecordedFailureGoesUnnoticed`, `Worktree.FailureAnywhereIff`).
- A restoration is accepted while a purge plan is outstanding, so a row can be recorded as purged while its file is alive
  (`CacheOutcomes.PurgedButAlive`); the row means that the file was unlinked exactly when no restoration had moved it back before
  (`CacheSlots.PurgedMeansUnlinkedUnlessMovedBack`).
- A worktree's retirement is exempt from the inactivity reset but not from the inventory that failed and incomplete scans rewrite
  (`Worktree.RetirementSurvivesExactly`).
- Retention deletes old process actions whether or not they are resolved (`Retention.ProcessActionsAreDeletedByAge`).
- A single log record longer than the limit is cut inside a line unless a newline happens to stand before the cut
  (`ServiceLog.WrittenKeepsWholeLines`).
- An I/O error while the kept lines are written back leaves content that is no suffix of what was written
  (`ServiceLog.FailedCompactionBreaksTheSuffix`): exactly then (`ServiceLog.LogIsSuffixIffNoneHarmful`), and until a write retains
  nothing that is out of place (`ServiceLog.WriteRestoresIff`, `ServiceLog.RestoredAfterLimit`).
- Link removal validates whole texts first and is then all or nothing (`LinkFinalizer.FinalizeIsAllOrNothing`). The unlink loop itself
  reads only 4096 bytes: a link that somebody replaces after validation by one with a longer text that begins with the approved 4096
  bytes passes for it and comes back cut (`LinkFinalizer.ReplacedLinkComesBackCut`). Rolling back is exact unless that happened
  (`LinkFinalizer.FailureIsExactIff`, `LinkFinalizer.LongTextsWereReplaced`).

## Model

| member | source | states |
|---|---|---|
| `ProcessTree.LastEntryWins` | internal/process/process.go:172-195 | Lookup finds the last entry of that PID, whenever there is one. |
| `ProcessTree.LinkStateIff` | internal/process/tree.go:64-91 | Each link state in terms of the entry and of the last entry of its parent PID: root, impossible for a younger or own parent, reparented beneath PID 1, missing, intact; both directions. |
| `ProcessTree.BuildTree` | internal/process/tree.go:46-62 | The loop delivers a tree whose links are those of the entry lookup finds and whose child lists hold every intact entry. |
| `ProcessTree.ChainListsAncestors` | internal/process/tree.go:130-151 | For any snapshot, cycles included, the bounded walk lists exactly the processes 1 to 128 intact links above, each once, none younger than the start. |
| `ProcessTree.AncestorsStartNoLater` | internal/process/tree.go:78-84 | Nothing any number of intact links above a process started after it. |
| `ProcessTree.Ancestors` | internal/process/tree.go:130-151 | The loop returns that walk. |
| `ProcessTree.Descendants` | internal/process/tree.go:109-128 | The breadth-first loop ends and returns, without duplicates, exactly the processes 1 to 128 child links below, never the start itself. |
| `ProcessTree.LinksMatchIffEntriesAgree` | internal/process/tree.go:46-62 | Child lists and parent links describe one relation if and only if every intact entry agrees with the lookup of its PID. |
| `ProcessTree.DistinctPidsAgree` | internal/process/tree.go:46-62 | Distinct PIDs are enough for that. |
| `ProcessTree.AncestorsAndDescendantsAreConverse` | internal/process/tree.go:109-151 | Where entries agree, for different processes, one is in the ancestors of the other exactly when the other is in its descendants, including the depth cutoff and parent cycles. |
| `ProcessTree.IsDescendantOf` | internal/process/tree.go:153-160 | True exactly for ancestors; where entries agree, exactly for members of the descendant set. |
| `ProcessTree.RepeatedPidBreaksTheConverse` | internal/process/tree.go:46-62 | A snapshot that repeats a PID, in which the two walks disagree. |
| `CodexRoots.CollectCandidates` | internal/adapters/codex/codex.go:76-110 | The loop collects a candidate for exactly the PIDs with a qualifying entry, described by the last one of each. |
| `CodexMeaning.CandidatesExactly` | internal/adapters/codex/codex.go:76-110 | A PID is a candidate exactly when one of its entries was read in detail with identity confidence of at least one half; the last such entry gives its identity and native id. |
| `CodexRoots.DetectRoots` | internal/adapters/codex/codex.go:112-136 | Whatever order the map yields, exactly the candidates without a hiding candidate above them are kept. |
| `CodexMeaning.RootsExactly` | internal/adapters/codex/codex.go:112-136 | A candidate becomes a root if and only if it names a session that no candidate at most 128 links above it names, or names none and has no candidate there. |
| `CodexMeaning.AttributionExactly` | internal/adapters/codex/codex.go:166-206 | A root goes to its own session, any other process to that of the nearest root above it, and to none if and only if there is no root above it; the session id is spelled out. |
| `CodexRoots.ShadowedHasKeptRoot` | internal/adapters/codex/codex.go:112-136 | Where the candidates above it are met in order, every shadowed candidate has a kept root among its ancestors, with the same native id when it has one. |
| `CodexRoots.EveryCandidateHasSession` | internal/adapters/codex/codex.go:166-206 | There every candidate is attributed: to itself if and only if it is kept, else to a kept root. |
| `CodexRoots.KeptRootIffInOrder` | internal/adapters/codex/codex.go:76-136 | The condition is exact: over everything that can be collected from a snapshot, being shadowed leaves a process a kept root above it if and only if the processes observed in detail are met in order on the way up. |
| `CodexRoots.SessionIffInOrder` | internal/adapters/codex/codex.go:166-206 | A process is given a session whenever it is collected as a candidate, whatever else is collected, under exactly the same condition. |
| `CodexRoots.GroundedIsInOrder` | internal/process/tree.go:130-151 | Where the links above a process end within 128, processes are met in order, whichever count. |
| `CodexRoots.InOrderIffGrounded` | internal/process/tree.go:130-151 | In a snapshot observed in detail throughout, that is the only way. |
| `CodexRoots.OwnSessionIffOwnRootIsNearest` | internal/adapters/codex/codex.go:166-206 | A shadowed candidate that names its session is attributed to that session if and only if no kept root of another session stands below all kept roots of its own. |
| `CodexRoots.Sanitize` | internal/adapters/codex/paths.go:43-57 | A derived session id is the first 64 characters of the native id with every character outside letters, digits, dash and underscore replaced. |
| `CodexRoots.ParentCycleLosesBothRoots` | internal/adapters/codex/codex.go:112-136 | Two equally old candidates that name each other as parent lose both root and session. |
| `CodexRoots.DeepTreeLosesCandidate` | internal/adapters/codex/codex.go:112-136 | One level beyond the bound a candidate is shadowed and left without a session. |
| `CodexRoots.NearestRootMayBeAnotherSession` | internal/adapters/codex/codex.go:166-206 | A shadowed candidate with a session of its own attributed to the root of another. |
| `RootElection.SortPids` | internal/sessions/session_build.go:38-42 | The visiting order is ascending and holds exactly the roots. |
| `RootElection.Elect` | internal/sessions/session_build.go:44-72 | Each claimed session gets its earliest claimant, ties to the lower PID; all other claimants are secondary for it. |
| `RootElection.ElectionIsUnique` | internal/sessions/session_build.go:44-72 | The claims alone determine the outcome. |
| `RootElection.RootsAreNotSecondary` | internal/sessions/session_build.go:44-72 | No process is both root and secondary, and none roots two sessions. |
| `RootElection.BuildSessions` | internal/sessions/session_build.go:34-110 | One record per claimed session, for its elected root. |
| `Ownership.LiveOwnershipLoads` | internal/storage/query_process.go:117-145 | Exactly the recorded processes not marked exited are loaded. |
| `Ownership.LiveOwnershipPicksBest` | internal/storage/query_process.go:137-142 | For each, the first among its most confident rows. |
| `Ownership.UpsertKeepsFacts` | internal/storage/write.go:165-183 | An upsert never changes the original parent, observed flag or first-seen time of a stored row. |
| `Ownership.FactsHaveOrigin` | internal/sessions/attribute.go:102-196 | Over every run with crashes and restarts, all that is remembered or stored of a process's origin is what one persisted scan of the run saw of it. |
| `Ownership.DetachedWasAttached` | internal/sessions/attribute.go:102-114 | A process read as detached was seen, by an earlier persisted scan, with an intact link to a parent it no longer has. |
| `Ownership.RestartKnowsIffLive` | internal/daemon/daemon.go:277-281 | A restart keeps a process's recorded facts if and only if its stored row is not marked exited. |
| `Ownership.FactsNeverChange` | internal/sessions/sessions.go:128-144 | Over any continuation of a run, original parent, observed flag and first-seen time stay the same, in memory and in every row, at all times, if and only if no daemon is ever seeded while the process is marked exited. |
| `Ownership.WithoutRestartNothingIsForgotten` | internal/sessions/sessions.go:128-144 | Runs without a restart never forget. |
| `Ownership.OwnedStaysAttributed` | internal/sessions/attribute.go:42-64 | A recorded process is attributed in every later scan that can inspect it, to the recorded session when no adapter claims it. |
| `Ownership.FirstSightingSetsFacts` | internal/sessions/attribute.go:104-112 | An unknown process takes its facts from the committed scan that first attributes it. |
| `Ownership.MissedThenRestartedForgets` | internal/storage/write.go:185-196 | A persisted scan without the process followed by a restart forgets it. |
| `Ownership.MissedScanLosesTheOriginalParent` | internal/storage/write.go:185-196 | The concrete run in which a live process loses its original parent that way. |
| `Ownership.Reconciler.Reconcile` | internal/sessions/reconcile.go:74-103 | The loop yields the records and the pending associations of the snapshot and leaves the committed state alone. |
| `OwnershipRecords.ScanRecords` | internal/sessions/attribute.go:18-64 | The records of a scan are, in snapshot order, exactly those of the readable entries with a claim: the adapter's if there is one, else the recorded one, else the environment's; the origin is kept or taken from the entry. |
| `OwnershipRecords.CommittedAssociates` | internal/sessions/sessions.go:128-144 | After a committed scan every recordable process is associated with the claim that comes first, and every other association is as before. |
| `OwnershipRecords.CommittedMarks` | internal/storage/write.go:52-87 | A persisted scan marks exactly the recordable processes as seen, and as exited exactly the others last seen before it. |
| `OwnershipRecords.UpsertAt` | internal/storage/write.go:165-183 | An upsert changes the first row of its session and process, whose confidence never falls, or appends one. |
| `OwnershipRecords.CommittedRows` | internal/storage/write.go:165-183 | A persisted scan leaves a row seen now for every record, all rows of other processes as they were, and no row without its origin or with less confidence. |
| `Ownership.Reconciler.Cycle` | internal/daemon/scan.go:33-69 | One scan cycle is one step of the run: the associations change by exactly what a persisted scan attributes, and not at all when it fails. |
| `Ownership.Reconciler.Seed` | internal/sessions/sessions.go:202-206 | Seeding adds what live ownership loads. |
| `Activity.CompleteDeltaIsWellFounded` | internal/process/activity.go:63-102 | A complete delta joins two samples of one process, in order, no counter going backwards. |
| `Activity.DeltaTellsSamples` | internal/process/activity.go:63-102 | A delta is complete if and only if the samples are of one process, in order, wholly known and without a counter that goes back, and then shows progress if and only if something moved. |
| `Activity.NoProgressIffSameCounters` | internal/process/activity.go:63-102 | A complete delta shows no progress if and only if CPU time, disk bytes, socket counts and queue sizes are all equal. |
| `Activity.DeltaExactly` | internal/process/activity.go:63-102 | Each counter of a delta on its own: known exactly between samples of one process in order of time that both know it and where it has not gone back, and then the difference. |
| `Classification.OrphanedExactly` | internal/classification/classification.go:86-132 | When one sample concludes "orphaned": both directions. |
| `Classification.HungExactly` | internal/classification/classification.go:86-132 | When one sample concludes "hung": both directions. |
| `Classification.VerdictsExactly` | internal/classification/classification.go:86-170 | Each of the eight states in terms of the input's own fields: both directions. |
| `Classification.RememberedExactly` | internal/classification/classification.go:86-170 | What is remembered of a sample, the basis state and since when, in the same terms. |
| `Classification.EvidenceExactly` | internal/classification/classification.go:86-170 | Which rules a conclusion names: that of its basis state, that of a stronger conclusion, and parent loss for a detached process. |
| `EvidenceRun.PreviousMatchesBaseline` | internal/daemon/classification.go:24-90 | The remembered conclusion of a process comes from the very sample that became its activity baseline. |
| `EvidenceRun.MemoryRestsOnWindow` | internal/daemon/classification.go:24-104 | Over every run each remembered conclusion rests on an unbroken window of due scans. |
| `EvidenceRun.OrphanedRestsOnWindow` | internal/daemon/scan.go:17-114 | An orphaned conclusion ends a window of consecutive due scans of at least five minutes, with no failed scan, gaps at most two cadences, every sample complete, idle, without a writable repository file or connected socket, detached, session-ended, of one process and status, no counter moved. |
| `EvidenceRun.HungRestsOnWindow` | internal/daemon/scan.go:17-114 | A hung conclusion ends such a window of one process that is stopped throughout, throughout idle or throughout waiting, and not both detached and past its session. |
| `EvidenceRun.SpanBound` | internal/classification/classification.go:163-170 | A window of n samples spans at most 2 cadences per gap, which bounds the number of samples from below. |
| `EvidenceRun.WindowForcesOrphaned` | internal/classification/classification.go:86-170 | Conversely every such window of five minutes ends in that conclusion. |
| `EvidenceRun.WindowForcesHung` | internal/classification/classification.go:86-170 | Likewise for such stopped windows and "hung". |
| `EvidenceMeaning.ClassifiedIff` | internal/daemon/classification.go:44-56 | Exactly the attributed processes that sampling reaches and exact lookup finds are classified. |
| `EvidenceMeaning.EntryIsDescribed` | internal/daemon/classification.go:44-76 | An entry says of its process what the snapshot, its attribution and the session records say, and its sample is one taken of it, not before the snapshot. |
| `EvidenceMeaning.ScanVerdict` | internal/daemon/activity.go:21-68 | The verdict of a scan in terms of the two newest samples: crashed, unknown, suspicious and active exactly, and whether it is at rest and holds a file or connection. |
| `EvidenceMeaning.SamplingIsSpaced` | internal/daemon/activity.go:21-25 | A scan samples if and only if it is the first its daemon commits or the interval has passed since the last one that did. |
| `EvidenceMeaning.OrphanedMeans` | internal/daemon/scan.go:17-114 | Orphaned only after five minutes of consecutive samples in which no counter moved, nothing was held open, the parent was lost and the session over. |
| `EvidenceMeaning.HungMeans` | internal/daemon/scan.go:17-114 | Hung only after five minutes of consecutive samples of a stopped process in which no counter moved and what it holds stayed the same. |
| `EvidenceMeaning.StillSamplesMeanOrphaned` | internal/classification/classification.go:86-170 | Conversely five minutes of such samples after a first one end in "orphaned" if and only if the process is abandoned and holds nothing. |
| `EvidenceMeaning.StillSamplesMeanHung` | internal/classification/classification.go:86-170 | And in "hung" if and only if it is stopped and not abandoned. |
| `EvidenceDaemon.Daemon.CollectActivity` | internal/daemon/activity.go:21-68 | The sampling loop yields exactly the measurements and baselines of the visited processes. |
| `EvidenceDaemon.Daemon.ClassifyActivity` | internal/daemon/classification.go:24-90 | The classification loop yields exactly the classified entries and the next memory. |
| `EvidenceDaemon.Daemon.RunScan` | internal/daemon/scan.go:17-114 | One cycle, committed, failed or abandoned, is one step of the run. |
| `CacheProvider.WalkPromises` | internal/cacheprovider/codex/provider.go:83-116 | The bounded walk enumerates what it claims complete and leaves only exclusively owned entries unprotected. |
| `CacheProvider.CompleteMeansEnumerated` | internal/cacheprovider/codex/provider.go:43-118 | A complete observation has every entry of every known session's root, an incomplete one protects all it saw, and the entry bound holds. |
| `CacheProvider.UnprotectedIsExclusivelyOwned` | internal/cacheprovider/codex/provider.go:120-171 | What stays unprotected is a sound file of the user, named by exactly one of all known sessions, and that one is finished. |
| `CacheOwnership.EntryExactly` | internal/cacheprovider/codex/provider.go:120-171 | An entry is left unprotected if and only if it is plainly the user's and named after the thread of exactly one session, which is over; it is filed under that only session. |
| `CacheOwnership.RootsExactly` | internal/cacheprovider/codex/provider.go:60-75 | The roots visited are the allowed ones of Codex sessions, each once. |
| `CacheOwnership.ObservationRefusedIff` | internal/cacheprovider/codex/provider.go:43-96 | An observation is refused if and only if there is no bound or it comes to a root it cannot read. |
| `CacheOwnership.CompleteExactly` | internal/cacheprovider/codex/provider.go:43-118 | It is complete if and only if sessions, roots and entries fit the bound, and then reports every entry in order, unprotected exactly when so owned. |
| `CacheOwnership.IncompleteExactly` | internal/cacheprovider/codex/provider.go:83-118 | Otherwise it inspects as much as the bound allows and reports a first part, all protected. |
| `CacheProvider.Traverse` | internal/cacheprovider/codex/provider.go:83-111 | The root loop with its early exits computes that walk. |
| `CacheProvider.Observe` | internal/cacheprovider/codex/provider.go:43-118 | The whole observation, refusals included. |
| `CacheSettling.CurrentAfterScan` | internal/storage/cache_query.go:61-72 | A scan makes current exactly what it observed, evaluated against the history of the newest evaluation; of duplicates the last counts. |
| `CacheSettling.VerdictsExactly` | internal/cachepolicy/evaluate.go:13-83 | Each verdict of an observation in terms of it, the stored row and the configuration, with its stable-since instant and policy: both directions. |
| `CacheSettling.CurrentRowsRestOnWindows` | internal/daemon/cache_scan.go:11-69 | Over every run each current row with usable history rests on an unbroken window that begins at its stable-since instant. |
| `CacheSettling.CandidateRestsOnSettledWindow` | internal/cachepolicy/evaluate.go:13-83 | Stale or recommended only after an unbroken run of evaluations, or a restoration and such a run, of at least the configured time with the same digests, unprotected and within bounds. |
| `CacheSettling.SettledRunForcesCandidate` | internal/cachepolicy/evaluate.go:13-83 | Conversely every such run ends in a candidate. |
| `CacheSettling.RecommendedExactly` | internal/cachepolicy/evaluate.go:52-72 | A candidate is recommended if and only if global mode and the first enabled policy both recommend. |
| `CacheSettling.EnabledPolicyIsFirst` | internal/cachepolicy/evaluate.go:85-92 | The policy used is the first enabled one. |
| `CacheSettling.InterruptionRestarts` | internal/daemon/cache_scan.go:71-83 | After a recorded failure, an incomplete scan, an absence or a protected observation the next scan concludes at most "settling". |
| `CacheSettling.FailureAnywhereIff` | internal/daemon/cache_scan.go:71-83 | A failure at any position of a run: every later conclusion is the one of the run without it when it was not recorded, and of the run without anything up to it when it was. |
| `CacheSettling.FailureSurvivedIff` | internal/daemon/cache_scan.go:71-83 | So right after a failed scan an artifact is a candidate if and only if that failure was not recorded and it would be one without it. |
| `CacheSettling.RecordedFailuresBreakWindows` | internal/daemon/cache_scan.go:71-83 | When every failure is recorded, a candidate has a settled window in which no scan failed at all. |
| `CacheSettling.IncompleteScanHoldsNothing` | internal/cacheprovider/codex/provider.go:112-116 | An incomplete observation of the modelled provider can be part of no window. |
| `CacheSettling.HeldMeansExclusivelyOwned` | internal/cacheprovider/codex/provider.go:120-171 | A provider observation that is part of a window was complete and saw the artifact as a sound file of the user owned by exactly one finished session. |
| `CacheSettling.UnrecordedFailureGoesUnnoticed` | internal/daemon/cache_scan.go:71-77 | The run recommended across an unrecorded failure, which settles when the failure is recorded. |
| `CacheSettling.Scanner.Run` | internal/daemon/cache_scan.go:11-69 | The scan loop with its failure paths is one step of the run and sets the health flag exactly. |
| `CacheSettling.CompactedExactly` | internal/storage/retention.go:150-154 | Retention takes no current row from the projection and changes none. |
| `CacheFs.RenameConserves` | internal/cachefs/fake.go:95-143 | A rename neither creates nor loses an identity. |
| `CacheFs.RemoveTakesOne` | internal/cachefs/fake.go:163-182 | A purge removes exactly one. |
| `CacheFs.RenameBack` | internal/cachefs/fake.go:122-143 | After quarantine, restoration is possible and gives back exactly the files there were. |
| `CacheFs.Fake.Quarantine` | internal/cachefs/fake.go:95-119 | Every refusal leaves the files alone, success moves the exact identity. |
| `CacheFs.Fake.Restore` | internal/cachefs/fake.go:122-143 | Likewise, to an absent destination. |
| `CacheFs.Fake.QuarantineEntry` | internal/cachefs/fake.go:145-161 | What is read at a quarantine path, and when reading fails. |
| `CacheFs.Fake.Purge` | internal/cachefs/fake.go:163-182 | Deletion of the exact identity, also when an error is reported after it. |
| `CacheLedger.RestoreUndoesQuarantine` | internal/storage/cache_transition.go:12-59 | Recording a quarantine and then its restoration gives the artifact back its digests and touches no other row. |
| `CacheLedger.QuarantineRowIsConsistent` | internal/daemon/cache_revalidation.go:73-79 | The row a quarantine writes is one that restore and purge revalidation accept. |
| `CacheAuthority.EveryEffectIsAuthorized` | internal/daemon/cache_action.go:22-81 | Over every run behind each rename call, failed ones included, and each plan stand, in order, an approval issued for exactly its binding, its consumption before expiry and a committed intent with the same binding read back from durable state. |
| `CacheAuthority.EffectsUseDistinctApprovals` | internal/daemon/cache_approval.go:188-204 | No approval stands behind two effects. |
| `CacheAuthority.CircuitLatches` | internal/daemon/cache_purge_action.go:180-191 | After the filesystem circuit opens there is no rename call and no plan before a restart. |
| `CacheAuthority.PurgedRowsFollowPlans` | internal/daemon/cache_purge_action.go:53-169 | A purged row is written at most once per plan, for a plan prepared at or after grace, before its expiry. |
| `CacheAuthority.OnlyCompletionRecords` | internal/daemon/cache_purge_action.go:110-169 | Only a completion with the plan's action id and secret writes it, having seen the path empty, and the plan is gone afterwards. |
| `CacheAuthority.AtMostOnePlan` | internal/daemon/cache_purge_action.go:78-91 | At most one plan is ever outstanding. |
| `CacheAuthority.RunKeeps` | internal/daemon/cache_approval.go:114-212 | The invariant behind these, kept by every step. |
| `CacheSteps.ApprovalIssuedIff` | internal/daemon/cache_approval.go:34-157 | An approval is issued if and only if the gates of its kind are open on rows, configuration and health, the audit row is written and fewer than 128 are outstanding; it binds the rows as they are for two minutes. |
| `CacheSteps.PreviewOnlyIssues` | internal/daemon/cache_approval.go:114-157 | Otherwise a preview only forgets approvals two minutes past their expiry. |
| `CacheSteps.ApprovalConsumedIff` | internal/daemon/cache_approval.go:188-204 | A request is accepted if and only if its approval is unused, unexpired and of this endpoint, and a purge is confirmed with the artifact's id; refusals are recorded. |
| `CacheSteps.ConsumptionIsFinal` | internal/daemon/cache_approval.go:188-204 | Any answerable request uses up exactly its approval. |
| `CacheSteps.IntentCommittedIff` | internal/daemon/cache_revalidation.go:11-85 | An intent is committed if and only if configuration, authority and rows are as approved and, for a cleanup, a fresh observation recommends the same file again, for the others both rows agree, for a purge after grace; a refusal writes its own row. |
| `CacheSteps.BeginOnlyIntends` | internal/daemon/cache_quarantine_action.go:12-21 | Nothing else changes, and the request is gone either way. |
| `CacheSteps.FileMovedIff` | internal/cachefs/fake.go:95-143 | The file moves if and only if nothing fails, the root is the approved one, exactly the approved file is there and nothing is in the way; otherwise no file changes and the action fails. |
| `CacheSteps.QuarantineIsRecorded` | internal/storage/cache_transition.go:12-43 | The rows that record a quarantine, field by field, and no others. |
| `CacheSteps.RestorationIsRecorded` | internal/storage/cache_transition.go:45-60 | Likewise for a restoration. |
| `CacheSteps.RecordFreesTheLane` | internal/daemon/cache_quarantine_action.go:28-45 | Recorded or not, the lane is free again. |
| `CacheSteps.PlanIssuedIff` | internal/daemon/cache_purge_action.go:53-95 | A plan is handed out if and only if none is outstanding; it names path, identity and root of the row for two minutes. |
| `CacheSteps.UnlinkedIff` | internal/cachefs/fake.go:163-182 | The executor removes exactly the planned identity under the planned root, once. |
| `CacheSteps.CompletionTripsIff` | internal/daemon/cache_purge_action.go:129-185 | A completion opens the circuit if and only if the path cannot be read, the root changed, something else is there, or it is empty only at or after expiry; it records a purge if and only if the file is gone in time. |
| `CacheSteps.CompletionClosesAction` | internal/daemon/cache_purge_action.go:129-178 | The action ends partial, failed or purged accordingly. |
| `CacheSteps.CompletionMarksArtifact` | internal/daemon/cache_purge_action.go:129-178 | So does the artifact's row, and no other. |
| `CacheSteps.CompletionMarksQuarantine` | internal/storage/cache_transition.go:62-73 | Only a recorded purge changes the quarantine row. |
| `CacheSteps.UnknownCompletionIsIgnored` | internal/daemon/cache_purge_action.go:98-127 | A completion without the plan's action id and secret changes nothing. |
| `CacheSteps.RestartForgets` | internal/daemon/daemon.go:165-195 | A restart keeps files, rows and plans handed out and nothing of the lane's memory. |
| `CacheSteps.OthersTripToo` | internal/daemon/cache_purge_action.go:180-185 | The circuit is one for all lanes: whoever opens it, it stays open for this one, and never in the middle of an action. |
| `CacheSteps.ScansDecideAuthority` | internal/daemon/cache_scan.go:11-83 | A committed scan makes its rows current and gives authority if and only if it was complete; a failed one takes it away. |
| `CacheSteps.HistoryIsOfSteps` | internal/daemon/cache_action.go:22-81 | Every entry of a run's history was appended by the step of its number, which found what the entry says. |
| `CacheSteps.EveryEffectHasItsStory` | internal/daemon/cache_revalidation.go:11-58 | Behind every rename call and plan stand, in this order, a preview with open gates, its consumption and a revalidation that found everything as approved; behind a cleanup a fresh observation that recommends that very file. |
| `CacheSteps.DoubtStopsEffects` | internal/daemon/cache_purge_action.go:171-184 | After a completion in doubt nothing is renamed and no plan handed out before a restart. |
| `CacheSlots.RunSlots` | internal/daemon/cache_restore_action.go:11-33 | The invariant behind the next three, kept by every step of daemon, executor, crash and outsider: puts and takes alternate at every quarantine path, and all that rows, approvals and plans name was put there. |
| `CacheSlots.EveryQuarantineHasItsFate` | internal/cachefs/fake.go:95-182 | Over every run the file of a quarantine is at its path with nothing done there since, or the next thing done there took that very identity away: one or the other, never both. |
| `CacheSlots.EveryDepartureHasItsQuarantine` | internal/cachefs/fake.go:122-182 | Every unlink and every restoration takes what one quarantine put there, and is the only one to take it. |
| `CacheSlots.PurgedMeansUnlinkedUnlessMovedBack` | internal/storage/cache_transition.go:62-73 | Behind a purged row stands a quarantine of exactly the plan's path and identity; of every quarantine at that path before the row, the file was unlinked by then if and only if no restoration had moved it back by then. |
| `CacheCustody.RunHolds` | internal/daemon/cache_restore_action.go:11-33 | The custody invariant, kept by every step of daemon, executor, crash and outsider. |
| `CacheCustody.QuarantinedRowsAreAccounted` | internal/daemon/cache_quarantine_action.go:12-45 | The file of a quarantined row was put at its path, and its exact identity is there if and only if not every quarantine of it, the last one included, was followed by an unlink of it or a restoration of it that is unresolved. |
| `CacheCustody.MissingMeansPlanOrRestore` | internal/daemon/cache_restore_action.go:11-33 | So a file that is missing was, after its last quarantine as after every other, unlinked under an issued plan that names exactly its path and identity, or moved by a restoration that is unresolved. |
| `CacheCustody.RunPlansUnlinks` | cmd/cli/cache.go:191-221 | Nobody unlinks without a plan that was issued. |
| `CacheCustody.IdentitiesAreConserved` | internal/cachefs/fake.go:95-182 | Over every run without outside changes, files of an identity plus unlinks of it stay constant. |
| `CacheOutcomes.UninterruptedApplication` | internal/daemon/cache_action.go:22-55 | An approval that still matches does exactly what it says: the file is renamed and the rows record it. |
| `CacheOutcomes.UninterruptedPreparation` | internal/daemon/cache_purge_action.go:53-95 | A purge approval that still matches leaves exactly its plan outstanding and the files untouched. |
| `CacheOutcomes.RestorationUndoesQuarantine` | internal/daemon/cache_restore_action.go:20-28 | Restoring a quarantined row gives back exactly the files there were before the quarantine. |
| `CacheOutcomes.PurgedRowForLivingFile` | internal/daemon/cache_revalidation.go:58-85 | In every world with both approvals for one row, an order of steps purges the row while the file is back and nothing was unlinked. |
| `CacheOutcomes.PurgedButAlive` | internal/storage/cache_transition.go:62-73 | Such a run from an empty store, with the two scans first. |
| `CacheOutcomes.ScansAreEvaluated` | internal/cachepolicy/evaluate.go:13-83 | Those two scans are evaluations of one unchanged file: settling at first sight, recommended once the configured time has passed. |
| `CacheLane.CacheLane.PruneApprovals` | internal/daemon/cache_approval.go:206-212 | The loop forgets exactly the approvals that expired more than two minutes ago. |
| `CacheLane.CacheLane.IssueApproval` | internal/daemon/cache_approval.go:34-157 | Issuing, with its gates, pruning and bound, is the preview step. |
| `CacheLane.CacheLane.ConsumeApproval` | internal/daemon/cache_approval.go:188-204 | Consumption marks the approval whatever comes of it; acceptance means unused, unexpired and the right endpoint. |
| `CacheLane.CacheLane.BeginLocked` | internal/daemon/cache_revalidation.go:11-85 | Revalidation and the intent row are the begin step; nothing else follows a refusal. |
| `CacheLane.CacheLane.ApplyLocked` | internal/daemon/cache_quarantine_action.go:12-45 | Intent, rename and record are the three steps in that order. |
| `CacheLane.CacheLane.PreparePurgeLocked` | internal/daemon/cache_purge_action.go:53-95 | Intent and plan are the two steps in that order. |
| `CacheLane.CacheLane.CompletePurge` | internal/daemon/cache_purge_action.go:98-178 | Completion, with its ambiguous endings, is the completion step. |
| `CacheLane.ExecutePurge` | cmd/cli/cache.go:191-221 | The executor unlinks unless the plan has expired, and completes either way. |
| `Worktree.OngoingRowsRest` | internal/daemon/worktree_scan.go:180-237 | Over every run each row that counts inactive time rests on a window that begins at its inactive-since instant. |
| `Worktree.VerdictsExactly` | internal/worktree/state.go:6-45 | Each verdict of an observation in terms of what was seen and the listed row: both directions, with since when. |
| `Worktree.SeenExactly` | internal/daemon/worktree_scan.go:117-120 | An observed worktree is judged against its listed row unless that is a tombstone. |
| `Worktree.UnseenExactly` | internal/daemon/worktree_scan.go:121-136 | A listed row that is not observed is missing, a retired one only unregistered, any other untouched. |
| `Worktree.InterruptionsExactly` | internal/storage/worktree.go:48-58 | Which rows a recorded failure and an incomplete scan leave unknown, and that nothing else changes. |
| `Worktree.PruningExactly` | internal/storage/worktree.go:60-79 | Pruning takes no registered row, and changes none. |
| `Worktree.StaleRestsOnLongWindow` | internal/worktree/state.go:6-45 | Stale only after one daemon saw the worktree quiet with the same path, directory identity, sources, HEAD, ref and status for at least the configured time: sightings at most two intervals apart, and in between nothing but incomplete scans and scans that did not list the row, unrecorded failures, pruning, and writes for other worktrees. |
| `Worktree.LongWindowForcesStale` | internal/worktree/state.go:6-45 | Conversely every such window that a scan opens without reading a retired row ends stale. |
| `Worktree.StaleIff` | internal/worktree/state.go:6-45 | Over every run a scan finds a worktree stale if and only if it ends such a window. |
| `Worktree.RecordedFailureStopsEveryWindow` | internal/storage/worktree.go:48-58 | After a recorded failed scan no row counts inactive time. |
| `Worktree.FailureAnywhereIff` | internal/daemon/worktree_scan_failure.go:10-62 | A failure at any position of a run: when it was not recorded every later scan finds the same worktrees stale as without it; when it was, exactly those that end such a window which began after it. |
| `Worktree.FailureSurvivedIff` | internal/daemon/worktree_scan_failure.go:10-62 | So right after a failed scan a worktree is found stale if and only if that failure was not recorded and it would be without it. |
| `Worktree.RetirementSurvivesExactly` | internal/daemon/worktree_scan_failure.go:10-62 | When a retired row stays retired through a failed or incomplete scan: both directions. |
| `Worktree.UnrecordedFailureGoesUnnoticed` | internal/daemon/scan.go:216-271 | The run stale across a failed scan whose transaction did not land. |
| `Worktree.RecordObserved` | internal/daemon/worktree_scan.go:117-120 | The loop over observed worktrees writes exactly their rows. |
| `Worktree.RecordMissing` | internal/daemon/worktree_scan.go:121-136 | The loop over the rest completes the scan. |
| `Worktree.Inventory.Collect` | internal/daemon/worktree_scan.go:41-139 | One committed collection is one step of the run. |
| `Policy.RetentionKeepsCooldowns` | internal/storage/retention.go:123-125 | Retention never shortens a running cooldown. |
| `Policy.RetentionKeepsBlocking` | internal/storage/query_policy.go:14-26 | In every reachable state a pass leaves each pair exactly as blocked, at any later time, as it was. |
| `Policy.RunKeeps` | internal/daemon/policy.go:25-102 | The cooldown invariant, kept by evaluations, failures and retention. |
| `Policy.CandidatesAreSpaced` | internal/policy/policy.go:81-89 | Over every run two candidate decisions of one policy and process are at least the cooldown apart that the policy had when it made the earlier one. |
| `Policy.AttemptsAreSpaced` | internal/daemon/automatic.go:14-30 | Automatic attempts map one to one to candidate decisions, at most one per evaluation, for one pair at least the earlier one's policy cooldown apart. |
| `Policy.CandidateCooldown` | internal/policy/policy.go:87-89 | A candidate's cooldown is its policy's, counted from the sample. |
| `PolicyDecisions.BatchDecides` | internal/policy/policy.go:56-99 | A batch holds exactly one decision for every process and policy that match, in order; it is refused if and only if the process is protected, cooling if and only if the newest stored candidate's cooldown ends after the sample, else a candidate. |
| `PolicyDecisions.StoredCooldown` | internal/storage/query_policy.go:14-26 | The cooldown read is that of the newest stored candidate of the pair, or none. |
| `PolicyDecisions.DecisionIsDetermined` | internal/policy/policy.go:56-99 | That description leaves no choice. |
| `PolicyDecisions.CurrentExactly` | internal/storage/query_policy.go:28-54 | The current decisions are, in order, exactly the newest evaluation's for live processes, the last of each pair. |
| `PolicyDecisions.AttemptIff` | internal/daemon/automatic.go:14-30 | An attempt follows an evaluation if and only if enforcement is on and some current candidate has an automatic enforcing policy; it is for the first of them. |
| `Policy.AttemptIsEnforceable` | internal/daemon/automatic.go:14-30 | An attempt is for a candidate of the evaluation just committed, of a live, unprotected process, under an automatic enforcing policy. |
| `Policy.EvaluatePolicies` | internal/daemon/policy.go:41-94 | The nested loops yield exactly the batch. |
| `Policy.SelectAutomatic` | internal/daemon/automatic.go:23-29 | The loop picks the first enforceable decision or none. |
| `ProcessActions.RevalidatedExactly` | internal/daemon/action_revalidation.go:23-158 | Where ids are unique, what passes is exactly a decision that is a current one of the newest evaluation for a live process, under an unchanged definition with authority for it, with fresh facts that make the process a candidate again. |
| `ProcessActions.PassesExactly` | internal/daemon/action_revalidation.go:23-158 | The same in terms of rows, definitions and fresh facts, with the matching conditions of the policy spelled out. |
| `ProcessActions.Revalidate` | internal/daemon/action_revalidation.go:23-158 | The checks one after the other, with their two searches, decide exactly that. |
| `ProcessActions.RevalidatedIsCurrent` | internal/daemon/action_revalidation.go:24-43 | In any case nothing passes but a current decision of the newest evaluation of a live process; automatically only an enforceable one. |
| `ProcessActions.AttemptPassesIffFresh` | internal/daemon/automatic.go:14-64 | The automatic attempt of the evaluation just committed passes if and only if the fresh facts still hold. |
| `ProcessActions.ActionGate.ExecuteCleanup` | internal/daemon/action.go:49-100 | One action appends exactly its trace to the log of row writes and signals: intent row, then signal, then outcome, or less where it stops; the log stays gated and the rows are what it leaves. |
| `ProcessActions.TraceExactly` | internal/daemon/action.go:49-100 | The signal is sent if and only if the intent row lands and the action passes; each final state of the action row has its exact condition. |
| `ProcessActions.SignalsAreForCurrentDecisions` | internal/daemon/action.go:49-100 | Every signal of a gated log directly follows the committed intent row of its own action and was for a decision then current in the newest evaluation, of a live process. |
| `Retention.DeleteKeepsAnswer` | internal/storage/retention.go:114-165 | No delete touches a row that a current query reads. |
| `Retention.OwnershipGoesFirst` | internal/storage/retention.go:154-157 | After the ownership delete no ownership row refers to a process about to be deleted. |
| `Retention.CompactOnceKeepsAnswer` | internal/storage/retention.go:106-219 | One pass leaves the answers alone, for any limits. |
| `Retention.CompactKeepsAnswers` | internal/storage/retention.go:68-104 | So does a compaction with the halved second pass: current decisions, running cooldowns, cache projection, live ownership, quarantined and unresolved rows. |
| `RetentionFates.PassKeepsExactly` | internal/storage/retention.go:106-219 | For every table and any limits, exactly which rows one pass keeps, in terms of the database before it: the young ones, and of the old ones what is newest, cooling, open, held, or still referred to. |
| `RetentionFates.CompactionKeepsExactly` | internal/storage/retention.go:68-104 | A compaction over budget does the same once more at half the limits. |
| `RetentionFates.HalfExactly` | internal/storage/retention.go:80-88 | Halving rounds toward zero. |
| `Retention.ProcessesFirstRevivesOwnership` | internal/storage/query_process.go:117-127 | The other order would make any exited process's ownership look live. |
| `Retention.ProcessActionsAreDeletedByAge` | internal/storage/retention.go:129-129 | Process actions are deleted exactly by age, resolved or not. |
| `Retention.Store.Execute` | internal/storage/retention.go:158-169 | One statement deletes exactly its rows and counts them. |
| `Retention.Store.RunPass` | internal/storage/retention.go:106-219 | The pass, and counters that add up to the rows that are gone. |
| `Retention.Store.Compact` | internal/storage/retention.go:68-104 | The whole compaction. |
| `RetainedDecisions.PassIsRetentionStep` | internal/storage/retention.go:106-219 | For any limits, a pass over the whole database is exactly one retention step of the policy run, so the theorems about cooldowns and spacing speak of it. |
| `RetainedDecisions.CompactionIsRetentionSteps` | internal/storage/retention.go:68-104 | A compaction is one such step, or two with the halved second pass. |
| `RetainedDecisions.EvaluationIsInserted` | internal/daemon/scan.go:166-178 | The transaction that inserts an evaluation and its batch is exactly the evaluation step. |
| `RetainedDecisions.FailureIsInserted` | internal/daemon/scan.go:216-268 | The record of a failed scan is exactly the failure step. |
| `ServiceLog.WrittenIsBoundedSuffix` | internal/servicelog/writer_unix.go:124-162 | One write leaves at most the limit, the newest bytes, and all of a record that fits. |
| `ServiceLog.WrittenExactly` | internal/servicelog/writer_unix.go:124-162 | What one write leaves: everything while it fits, the end of a record that fills the limit alone, else the record behind the lines that begin in the last three quarters of the limit, or in what the record leaves. |
| `ServiceLog.LogIsSuffixOfHistory` | internal/servicelog/writer_unix.go:100-111 | After any writes the file is a bounded suffix of everything ever written. |
| `ServiceLog.WrittenKeepsWholeLines` | internal/servicelog/writer_unix.go:134-162 | When a write keeps whole lines: both directions. |
| `ServiceLog.LogHoldsRecentLines` | internal/servicelog/writer_unix.go:124-162 | With whole lines no longer than the limit the file is always the most recent whole lines. |
| `ServiceLog.FailureKeepsSuffixIff` | internal/servicelog/writer_unix.go:124-162 | What each possible failure leaves is a suffix of the bytes the file took if and only if the lines being written back were not interrupted where what is back is not their end. |
| `ServiceLog.LogIsSuffixIffNoneHarmful` | internal/servicelog/writer_unix.go:100-162 | Over every run of successful and failed writes the file is at all times a suffix of what it took if and only if no failure was of that kind. |
| `ServiceLog.LogStaysBounded` | internal/servicelog/writer_unix.go:124-162 | Through any failures it never exceeds the limit. |
| `ServiceLog.WriteRestoresIff` | internal/servicelog/writer_unix.go:124-162 | Whatever a failure left, a later successful write makes the file a suffix of the history again if and only if what it retains of the old content is one. |
| `ServiceLog.RestoredAfterLimit` | internal/servicelog/writer_unix.go:124-162 | At the latest once the limit's worth of bytes has been written again. |
| `ServiceLog.FailedCompactionBreaksTheSuffix` | internal/servicelog/writer_unix.go:155-161 | The run with an error in the middle of a compaction. |
| `ServiceLog.Writer.WriteAll` | internal/servicelog/writer_unix.go:179-191 | Through short writes everything is written in order; an error leaves exactly a counted prefix. |
| `ServiceLog.Writer.ReadTail` | internal/servicelog/writer_unix.go:164-177 | The newest bytes asked for, or an error. |
| `ServiceLog.Writer.EnforceBound` | internal/servicelog/writer_unix.go:124-162 | Success writes exactly the specified content; an error leaves exactly what the place where it stopped allows. |
| `LogFollow.PageIsInterval` | internal/storage/query_audit.go:69-125 | A page is everything that matches between the old and the new cursor, and the cursor advances. |
| `LogFollow.GrowthKeepsInterval` | cmd/cli/logs.go:56-94 | Appends never fall into what has been printed. |
| `LogFollow.HighestId` | cmd/cli/logs.go:121-129 | The highest id of a page, 0 for none. |
| `LogFollow.Poll` | cmd/cli/logs.go:69-92 | One request prints its page, keeps the printed entries exactly those up to the cursor, moves the cursor if and only if there was something, and asks again at once exactly after a page that is not empty and, with a positive limit, full. |
| `LogFollow.DrainedIff` | cmd/cli/logs.go:69-92 | A page counts as the last one if and only if it holds less than was asked for, which is 100 for a limit that is not positive. |
| `LogFollow.Follow` | cmd/cli/logs.go:56-94 | Under any interleaving of appends and polls each matching entry above the start is printed once, in order, with a strictly increasing cursor; a page that does not fill means nothing is left. |
| `LinkFinalizer.RollbackRestores` | internal/worktree/finalizer.go:114-127 | Rollback gives back the original directory with the link texts as they were read, but for links whose restoration fails. |
| `LinkFinalizer.Checkout.Validate` | internal/worktree/filesystem.go:67-98 | The loop accepts exactly distinct .env and .envrc links that are there with their whole approved texts. |
| `LinkFinalizer.FinalizeIsAllOrNothing` | internal/worktree/finalizer.go:31-58 | When nobody changes the directory after validation, however long the texts: success has removed exactly the validated links, and a failure leaves the directory as it was, but for links whose restoration failed. |
| `LinkFinalizer.OutcomeExactly` | internal/worktree/finalizer.go:31-58 | Success if and only if validation, the directory, every single link and the native removal all allow it; what is left after success, after a refusal and after a stop at a link. |
| `LinkFinalizer.FailureIsExactIff` | internal/worktree/finalizer.go:94-127 | With others changing it in between, and restorations that succeed, a failure leaves what they left if and only if no text that was unlinked is longer than the buffer. |
| `LinkFinalizer.LongTextsWereReplaced` | internal/worktree/finalizer.go:101-105 | Such a text was put there after validation; the approved text fills the buffer and is its beginning. |
| `LinkFinalizer.ReplacedLinkComesBackCut` | internal/worktree/finalizer.go:39-50 | The concrete run with such a replacement of .env, which comes back without its last character. |
| `LinkFinalizer.Checkout.Restore` | internal/worktree/finalizer.go:114-127 | The loop restores what is absent, never overwrites, and reports exactly the rest. |
| `LinkFinalizer.Checkout.UnlinkApproved` | internal/worktree/finalizer.go:94-112 | All approved links are removed, or the removed ones are put back as read, but for those whose restoration failed. |
| `LinkFinalizer.Checkout.Finalize` | internal/worktree/finalizer.go:31-58 | Validation, identity check, unlinking, native removal and rollback yield exactly the specified outcome, for any answers and any outside change after validation. |

## Left out

- Kernel and operating-system access, rollout file reading, the real filesystem backend and Git execution: their answers are arbitrary inputs.
- HTTP, command line, rendering, metrics, audit wording and evidence text.
- Configuration validation: what it guarantees is a precondition where a theorem needs it (unique policy ids, non-negative cooldowns, a minimum stable window).
- Worktree retire, restore and purge actions and process approvals: the same approval and two-phase shape as the cache lane; only their effect on worktree rows and the order of a process action are modelled.
- Session lifecycle transitions and the ending of departed sessions: single-branch updates that no theorem here needs.
- The choice between several adapters' attributions: live evidence, recorded ownership and environment are inputs taken in the source's order.
- The parsing of snapshot file names: the thread id a name carries is an input of the provider model.
- The provider's two sorts: the model takes the lists in whatever order they come.
- First- and last-observed instants of artifacts and last-activity instants of worktrees: no decision depends on them.
- Counters inside policy decisions and audit rows written beside each action.
- CacheProtocol.Begin: the fresh provider observation is an arbitrary answer rather than a reading of the modelled files, which allows more runs than the daemon has.
- Worktree.StaleRestsOnLongWindow: assumes that later daemons have later start instants.
- Policy.CandidatesAreSpaced: assumes a clock that does not run backwards between committed samples and retention passes.
- Ownership.FirstSightingSetsFacts: assumes that a snapshot names each PID once.
- SQL row order without ORDER BY: rows are taken in insertion order.
- Interference inside the quarantine directory by other programs, and changes to a checkout while its links are being unlinked or restored: outside changes come between validation and unlinking.
- ProcessActions.Revalidated: the fresh snapshot, executable and session evidence are one optional target, and the binding digest is equality of decision and definition.
