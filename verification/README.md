# Verified model of the canonical event store's protocols

The repository keeps a git-backed event store consistent across crashes, competing processes and several devices.
This project models the protocol layer under `extensions/_shared` in Dafny and proves what that layer is for.
`dafny verify dfyconfig.toml` checks all of it.

## What is modelled

- **Recovery protocol v3** (`RecoveryFold`, `RecoveryLog`, `RefGate`, `RecoveryWorld`, `RecoverySession`, `RecoveryCsj`,
  `RecoveryStartup`, `RecoveryDrain`, `RecoveryRuns`). An append-only bag of events is folded into at most five slots per
  episode. `RecoveryFold` has the fold as a function of the set of events and the loops that compute it. `RecoveryLog`
  describes the logs the protocol can leave behind, `RecoveryWorld` the invariant over log, ref and ref moves.
  `RecoverySession` is a class with the durable fields and one method per operation; a process dies when its `fuel`, the
  number of durable writes it gets to make, runs out. Thrown errors and crashes are the `Ending` a method returns.
- **Exact cohort commits and the stale-base merge** (`Cohort`, `CohortCommit`, `CohortIndex`, `Csj`).
- **Device join** (`DeviceMerge`, `DevicePrepare`, `DeviceOrder`, `DeviceLinks`, `DeviceGuard`, `DeviceJournal`). The merge
  functions, why both devices arrive at the same tree, the order in which a delta is written, lookups through links, the
  checks and when they pass, and a class that carries HEAD, worktree and index from H to M under a journal.
- **Supporting algorithms**: the causal sort (`CausalSort`), the validated-scan cache (`ScanRecords`, `ScanCache`), canonical
  JSON as in section 3.2 of RFC 8785 (`Jcs`, `JcsText`) and the keyed serial queue (`KeyedQueue`).
- `Order`, `Results` and `Git` hold what they share: orders and sorting, result types, paths, trees, commits, the index.

## How things are represented

- A digest or object id is the value that is hashed, which is what an injective hash amounts to: two commits are equal
  just when parents, tree and message are, a blob id is its content, an episode id is its operation. The drain commit
  message carries the manifest root in the original; parent and tree determine that root, so the model leaves it out.
- A tree is a finite map from paths to entries in which no path is a directory prefix of another. The worktree is the
  map of its leaves; directories are implied, and empty ones, which the code removes, do not show. A lookup follows a link
  that stands in a parent position, as lstat does; what is found behind it, and what a deletion there does, is the
  parameter `Links`.
- `update-index --add --cacheinfo` refuses an entry that clashes with another path; `update-index --index-info` replaces
  what it clashes with. A batch of index records is one atomic step, as git's index lock makes it.
- The barrier gives mutual exclusion, so processes run one after another; each may stop at any durable write. Someone
  outside the protocol may commit on top of the ref, between gate and compare-and-set too, but moves it only to descendants.
- History acceptance, the callers' checks, the eligibility clauses and certificates that are not modelled, the view builder,
  the check of a parent's view versions, the ignore-file contract, JSON parsing and the body contracts are parameters.
- Paths and ids are sequences of characters compared by character code. `Jcs` works on UTF-16 code units, and represents a
  finite number by its JSON text.
- A file identity determines the bytes of the file. Writing out a parsed envelope and reading it again keeps its strings and
  its shape; that it keeps every number is not assumed, because -0 comes back as 0.

## Where the code and its promises part

- Preparing a cohort commit needs more than real changes: a put over a symlink or gitlink is refused as a type change, and a
  directory replaced by a file in one cohort is always refused, because the put sorts before the deletion and git does not
  place it. `CohortCommit.PrepareExactCohortCommit` states the exact condition.
- Index convergence is all-or-nothing exactly when no unowned staged line is in the way of an added cohort path; otherwise
  it fails after the batch was applied (`CohortIndex.FailureCanFollowTheBatch`). The device join shares this: its first run
  fails after HEAD moved, the obstructing lines are gone, and the next run that lives long enough finishes
  (`DeviceJournal.ObstructedJoin` at an input, `DeviceJournal.Device.RecoverAcrossCrashes` for all whose links are clear).
- A drain that nobody disturbs is still only published, with its index half pending, exactly when a line outside the plan is
  in the way of a file the plan adds (`RecoveryDrain.RequestDrain`).
- A start cannot settle a stale episode whose commit cannot be merged, because the cohort deletes a path, say, or somebody
  else changed one of its paths: each start fails and leaves it as it was (`RecoveryStartup.RecoverStartupEpisodes`).
- A device join whose deleted path is afterwards found through a link passes all checks, moves HEAD and fails its final
  verification; it may then never finish (`DeviceJournal.LinkedJoin` at an input), and a later run may delete what stands
  behind the link instead, which is called straying. A run left alone publishes without straying exactly when it is straight,
  that is, when every write finds its path at H or M itself and the final lookups find M (`DeviceJournal.Device.RecoverJournal`,
  `DeviceGuard.AlwaysVerified`). That all checks pass and the rest is straight from every crash point holds exactly when what
  stands behind links is clear after every number of writes (`DeviceGuard.ClearIsExact`); it is enough that no link stands
  above a path looked up and no leaf at a view root (`DeviceGuard.PlainTreesAreClear`).
- Pruning keeps a deletion of a directory, which changes nothing, and drops a deletion of a gitlink, which would.
- Canonical JSON is not injective when arrays may have holes. The one collision is an array of a single hole against an empty
  array, at any depth (`JcsText.SameText`): both give `[]`. So a value's text may be another's too exactly when it holds an
  empty array or a lone hole (`JcsText.TextIsItsOwn`), and different values without a lone hole never share a text.
- A device-join journal whose process lost its compare-and-set and died before removing the journal, or lost it during a
  recovery, is refused by every later recovery, because HEAD is neither H nor M (`DeviceJournal.StrandedJoin` at an input,
  `DeviceJournal.Device.RecoverJournal` for all).
- A record answered from the cache differs from the one a fresh validation gives exactly when its envelope does not survive
  JSON, as a body with -0 does not (`ScanCache.ScanFileCached`); errors never differ.
- A trusted cache row always rebuilds, so the scan's revalidation counter never moves. Certificates A and B never refuse a
  merge that was built, the published-diverged and candidate-invalid failures never arise, and neither does the liveness
  failure of the drain's claim loop.

## Model

| member | source | states |
|---|---|---|
| RecoveryFold.FileEvents | extensions/_shared/convergence-recovery.ts:752-778 | The filing loop accepts a list of events exactly when, as a set, they are well-formed, of one episode, and give at most one event per slot and kind; the slot records it builds are a function of that set. |
| RecoveryFold.SlotProblem | extensions/_shared/convergence-recovery.ts:780-810 | One slot record: a problem is reported exactly for a record that is out of order, has the wrong abort or terminal, or does not bind its operation; the checks run in the order of the original. |
| RecoveryFold.SettleSlots | extensions/_shared/convergence-recovery.ts:779-810 | The second loop accepts exactly the slot records in the right order and binding their operation, and sets a stale abort (and its terminal) aside wherever a prepared event stands beside it. |
| RecoveryFold.ClosureProblem | extensions/_shared/convergence-recovery.ts:811-818 | The slots together: a problem is reported exactly when closures contradict each other or are followed by events, or claims have a gap. |
| RecoveryFold.FoldRecoveryEventsV3 | extensions/_shared/convergence-recovery.ts:752-819 | The fold depends on the set of events only: order and repetition change neither the slots nor whether it fails; it fails exactly when the set is inconsistent, a slot is malformed, closures contradict each other or are followed by events, or claims have a gap. |
| RecoveryLog.ShapeFolds | extensions/_shared/convergence-recovery.ts:752-819 | The log of an episode that claimed slots 1 to n and reached a given stage folds without error to the records of that stage. |
| RecoveryLog.CursorOfSlots | extensions/_shared/convergence-recovery.ts:832-844 | The cursor of such a log: next slot, pending slot, complete and terminal flags. |
| RecoveryLog.ShapeAdvances | extensions/_shared/convergence-recovery.ts:884-981 | Each protocol step appends one event that was not in the log and yields the log of the next stage. |
| RecoveryLog.AdvancesProgress | extensions/_shared/convergence-recovery.ts:884-981 | Every step strictly lowers a measure of remaining slots and stages, never touches a closed episode, and keeps a prepared body for good. |
| RecoveryLog.PreparedRevivesAbortedSlot | extensions/_shared/convergence-recovery.ts:788-806 | For any foldable event set, adding a valid prepared event to an aborted last slot (terminal too, in slot 5) still folds, changes only that slot, and makes it the pending one again. |
| RecoveryLog.PublishedFolds | extensions/_shared/convergence-recovery.ts:788-810 | In any foldable event set whose last slot is prepared, revived or not, the published event of its candidate folds in and changes only that slot. |
| RecoveryLog.ConvergedFolds | extensions/_shared/convergence-recovery.ts:788-818 | And after that the converged event does, and the episode is complete. |
| RecoveryWorld.RecordKeepsWorld | extensions/_shared/convergence-recovery.ts:884-981 | Appending the event of any protocol step keeps the invariant over log, ref and moves, and only goes forward. |
| RecoveryWorld.MoveKeepsWorld | extensions/_shared/canonical-ref-move.ts:317-440 | Moving the ref to a descendant, through the gate or from outside, keeps the invariant: published candidates stay in the history, no second merge move appears. |
| RecoveryWorld.PublishedForever | extensions/_shared/convergence-recovery.ts:970-973 | After any run from a sound state a published candidate is still an ancestor of the ref, so the diverged failure cannot arise. |
| RecoveryWorld.OnlyRecoveryMovesWhileOpen | extensions/_shared/canonical-ref-move.ts:262-308 | In any run, every move made through the gate while an episode was open was a recovery or merge move naming that episode. |
| RecoveryWorld.MergedForever | extensions/_shared/csj-prospective-merge.ts:817-830 | After the one merge move of an episode, in every later state the next-kick decision is a bounded recovery, an owner alert or the ordinary path, and no other merge move of the episode exists. |
| RecoveryWorld.ClosedForever | extensions/_shared/convergence-recovery.ts:884-981 | Nothing is ever appended to a complete or terminal episode. |
| RecoveryWorld.ReachableLogsFold | extensions/_shared/convergence-recovery.ts:752-844 | In every sound state each episode folds; its claimed slots are exactly 1 to n with n at most 5, all but the last aborted, and its cursor is the one of its stage. |
| RefGate.GatePasses | extensions/_shared/canonical-ref-move.ts:262-308 | The gate opens for an ordinary purpose exactly when nothing is open or quarantined, and for a recovery purpose exactly when it names the one open episode; in both cases only on an accepted history. |
| RecoverySession.RecoverySession.Append | extensions/_shared/convergence-recovery.ts:655-717 | Appending the event of a protocol step finds it absent from the log and creates it; a step that may be taken keeps the invariant; a crash leaves everything as it was. |
| RecoverySession.RecoverySession.ReadFold | extensions/_shared/convergence-recovery.ts:719-724 | Reading an episode back never fails and gives the records of its stage. |
| RecoverySession.RecoverySession.OpenEpisodes | extensions/_shared/convergence-recovery.ts:852-882 | Exactly the open and the terminal episodes are reported, at most one is open, none is quarantined. |
| RecoverySession.RecoverySession.Outside | extensions/_shared/canonical-ref-move.ts:317-440 | A commit made outside the protocol on top of the ref keeps the invariant. |
| RecoverySession.RecoverySession.RefMove | extensions/_shared/canonical-ref-move.ts:317-440 | For any two tips: refused by the gate exactly when the gate is closed, and then nothing changes; otherwise a compare-and-set whose three outcomes depend on the tip found. A move to a descendant, and a merge that brings in a new candidate, keep the invariant. |
| RecoverySession.RecoverySession.Publish | extensions/_shared/git-exact-cohort.ts:385-435 | Published, already published, contained, or a conflict: a conflict exactly when the candidate is not in the history of the current tip; errors are passed on only while the ref is still the base. The invariant is kept for a candidate that descends from the base. |
| RecoverySession.RecoverySession.ClaimNextRecoverySlotV3 | extensions/_shared/convergence-recovery.ts:884-897 | Claims slot 1, or the slot after an aborted last slot; a pending, complete or terminal episode is reported unchanged; an exhausted one is closed. It never throws, and keeps the invariant unless it opens an episode beside an open one, which the primitive does not check. |
| RecoverySession.RecoverySession.EnsureTerminal | extensions/_shared/convergence-recovery.ts:906-908 | Closes an episode whose fifth slot was aborted. |
| RecoverySession.RecoverySession.RecordDrainPreparedV3 | extensions/_shared/convergence-recovery.ts:899-904 | Records the commit, or refuses it exactly when base, manifest root or frozen index root differ from the operation; the invariant is kept for a commit built by the exact-cohort step. |
| RecoverySession.RecoverySession.AbortRecoverySlotV3AfterRefold | extensions/_shared/convergence-recovery.ts:912-924 | Fails exactly for an unclaimed slot; aborts an unprepared slot (and ends the episode in slot 5); reports a prepared, complete or terminal one unchanged; a crash can leave only the first of its two events. |
| RecoverySession.RecoverySession.ReachRef | extensions/_shared/convergence-recovery.ts:953-970 | On success the candidate is in the history of the ref; a failure leaves it outside and is a stale base, a failed check or a closed gate; none occurs on a fresh base in a calm environment; a failed check before publication changes nothing. |
| RecoverySession.RecoverySession.EnsurePublished | extensions/_shared/convergence-recovery.ts:953-972 | The published event is recorded exactly when the candidate is in the history of the ref; a failed check before publication changes nothing. |
| RecoverySession.RecoverySession.EnsureConverged | extensions/_shared/convergence-recovery.ts:977-980 | The converged event is recorded only with the index at the ref on every cohort path and unchanged elsewhere; an index failure means exactly that the index could not follow; a failed check changes nothing; a crash leaves the index untouched or at the ref without the event. |
| RecoverySession.RecoverySession.RecoverDrainSlotV3 | extensions/_shared/convergence-recovery.ts:926-981 | Stage by stage, what recovery of a slot does to log, ref and index and how it can end; once the candidate is in the history, or can be published with nobody interfering, it converges exactly when the index can follow; a failed check changes nothing; the unclaimed error comes exactly for unclaimed slots, the candidate-invalid and published-diverged errors never, and it makes at most four durable writes. |
| Csj.BuildProspectiveCsjMerge | extensions/_shared/csj-prospective-merge.ts:176-212 | Fails exactly when git cannot place a cohort path; otherwise the tree is the head overlaid with the cohort, with both heads as parents and ancestors. |
| Csj.CertAExact | extensions/_shared/csj-prospective-merge.ts:214-228 | For any tree whatever, Cert.A accepts exactly the overlay of entries that all change the head without changing an object type. |
| Csj.CertBExact | extensions/_shared/csj-prospective-merge.ts:229-252 | For a candidate that is the base overlaid with the cohort, Cert.B accepts exactly the head overlaid with the cohort. |
| Csj.CertificatesPinTheMerge | extensions/_shared/csj-prospective-merge.ts:214-252 | Under the admission facts, both certificates together accept the right merge tree and no other. |
| Csj.MergeIsUnique | extensions/_shared/csj-prospective-merge.ts:214-252 | There is only one such tree. |
| Csj.DecideCsjNextKick | extensions/_shared/csj-prospective-merge.ts:817-830 | What each decision implies about ancestry, publication and budget. |
| RecoveryCsj.BuiltOverlay | extensions/_shared/csj-prospective-merge.ts:176-252 | A recorded commit with only puts is the base overlaid with its entries, all of them real changes of regular files. |
| RecoveryCsj.BuiltMergePasses | extensions/_shared/csj-prospective-merge.ts:214-252 | The merge built for an eligible episode always passes both diff certificates. |
| RecoveryCsj.BuildCertified | extensions/_shared/csj-prospective-merge.ts:461-531 | Building and certifying succeeds exactly when git can place the cohort on the head; the merge descends from both sides. |
| RecoveryCsj.TryMerge | extensions/_shared/csj-prospective-merge.ts:461-738 | From an eligible episode to the move: an error comes exactly when git cannot place the cohort and changes nothing; otherwise the ref is the merge, or the move was refused for a reason outside the model. |
| RecoveryCsj.MoveToMerge | extensions/_shared/csj-prospective-merge.ts:699-738 | One merge move: made, the ref is the merge and not the base; refused, only because the history was not accepted or somebody committed. |
| RecoveryCsj.RecoverMerged | extensions/_shared/csj-prospective-merge.ts:740-795 | Once the merge is the head, recovery converges the episode exactly when the index can follow, and otherwise leaves it published with the failure on record; the ref stays where it is. |
| RecoveryCsj.RunCsjInBarrier | extensions/_shared/csj-prospective-merge.ts:353-795 | Ineligible exactly by the eligibility clauses, with nothing changed; an error exactly for an eligible merge that git cannot place; an eligible, placeable merge that nobody hinders is always made, and joined exactly when the index can follow it, else left pending with the failure on record. |
| RecoveryStartup.KickMeans | extensions/_shared/canonical-git-runtime.ts:2246-2271 | The decision of a pass in terms of stage and ancestry; a published candidate outside the history is never seen, and a merge is decided exactly for siblings. |
| RecoveryStartup.SlotToRecover | extensions/_shared/canonical-git-runtime.ts:2235-2244 | The pending slot, or the next one after claiming it; none exactly when the episode is closed. |
| RecoveryStartup.RecoverOnce | extensions/_shared/canonical-git-runtime.ts:2282-2375 | A recovery in a pass reduces the passes left, or fails; a failure is retried only after a merge whose recovery failed; in a calm environment a fresh episode advances exactly when the index can follow. |
| RecoveryStartup.MergeOnce | extensions/_shared/canonical-git-runtime.ts:2308-2361 | A merge in a pass completes the episode when it is admitted, git can place it, the index can follow and nobody hinders it; a merge that cannot be made leaves episode and ref as they were; a recovery that fails after the move is kept on record for a retry. |
| RecoveryStartup.FollowKick | extensions/_shared/canonical-git-runtime.ts:2246-2377 | A pass over a pending slot does what the decision says; the owner alert is raised exactly with the liveness failure, and then nothing has changed. |
| RecoveryStartup.OnePass | extensions/_shared/canonical-git-runtime.ts:2234-2377 | One pass settles the episode, reduces the passes left, retries without increasing them, or fails; it gets through whenever nothing stands in the way, leaves a closed episode alone, and cannot move a stale one that cannot be merged. |
| RecoveryStartup.SettleEpisode | extensions/_shared/canonical-git-runtime.ts:2231-2388 | The loop closes the episode in at most six passes plus one per retried failure. The liveness failure takes a merge whose recovery failed; an episode with nothing in its way is settled, with ref and index where they belong; a fresh one left alone, with no failed merge on record, is settled if and only if the index can follow; a stale one that cannot be merged stays as it is. |
| RecoveryStartup.RecoverStartupEpisodes | extensions/_shared/canonical-git-runtime.ts:2221-2388 | With nothing open, a start succeeds and changes nothing. With an episode open it ends as the loop over it does: settled with ref and index where they belong when nothing stands in the way; for a fresh episode left alone, if and only if the index can follow; never for a stale one that cannot be merged; the liveness failure only after a merge whose recovery failed. A process that gets more than 120 writes does not die in it, and after success no episode is open. |
| RecoveryDrain.PreparedBinds | extensions/_shared/canonical-git-runtime.ts:2779-2861 | A commit prepared for a plan always matches the operation frozen for that plan, and its event can be decoded. |
| RecoveryDrain.OperationPins | extensions/_shared/canonical-git-runtime.ts:2779-2861 | Whatever commit is recorded for an operation is the commit for that plan on that base, with the frozen index lines: root and index root determine it. |
| RecoveryDrain.FrozenCanFollow | extensions/_shared/git-exact-cohort.ts:454-530 | An index frozen without conflicts can follow the commit of a committable plan if and only if no line outside the plan is in the way of a file the plan adds. |
| RecoveryDrain.RecoverAware | extensions/_shared/canonical-git-runtime.ts:1424-1455 | A failure is reported as published and pending exactly when the candidate is in the history of the ref; any other failure is passed on; a prepared commit left alone on its base converges exactly when the index can follow, and is published otherwise. |
| RecoveryDrain.ClaimSlot | extensions/_shared/canonical-git-runtime.ts:2830-2858 | The claim loop always ends in an acquired slot or a finished drain, never in its liveness failure. |
| RecoveryDrain.RecoverPending | extensions/_shared/canonical-git-runtime.ts:2840-2856 | One round: the pending slot is recovered, which finishes the drain or is followed by acquiring the next slot. |
| RecoveryDrain.RecordCommit | extensions/_shared/canonical-git-runtime.ts:2859-2861 | Preparing and recording fail only for a plan that cannot be committed; what is recorded is the plan laid over the ref, with the frozen lines. |
| RecoveryDrain.PrepareAndRecover | extensions/_shared/canonical-git-runtime.ts:2859-2876 | A committable plan left alone converges, or is published and pending exactly when a line outside the plan is in the way. |
| RecoveryDrain.CommitOperation | extensions/_shared/canonical-git-runtime.ts:2829-2876 | A drain of one operation, new or known, that ends consumed, converged or published has the plan applied to the frozen ref in the history; no other episode changes; left alone, a new committable one converges unless a line outside the plan is in the way. |
| RecoveryDrain.RefuseOperation | extensions/_shared/canonical-git-runtime.ts:2822-2828 | A drain is refused exactly for a terminal episode, or beside another open one. |
| RecoveryDrain.RequestDrain | extensions/_shared/canonical-git-runtime.ts:2750-2876 | Whatever drain ends consumed, converged or published, the history has the pruned plan applied to the ref it froze, file by file, and converged means that the index has it too. Left alone with seven writes and nothing open, a new committable drain without conflicted lines always converges, unless an index line outside the plan is in the way of a file it adds; then it is published and pending. |
| RecoveryRuns.FirstDrain | extensions/_shared/canonical-git-runtime.ts:2759-2876 | An instance: a fresh store, left alone and given seven durable writes, commits its first drain and has it in the index. |
| RecoveryRuns.FirstMerge | extensions/_shared/canonical-git-runtime.ts:2308-2361 | An instance: a drain dies once its commit is recorded, somebody commits another file, and the next start joins the two: both files, both parents, the index line, nothing open. |
| RecoveryRuns.Run | extensions/_shared/canonical-git-runtime.ts:2221-2876 | Any sequence of starts, drains, ordinary moves, outside commits and index edits, each process dying at any durable write, keeps the invariant, only goes forward, and leaves every episode foldable. |
| Cohort.ValidateCohortPlan | extensions/_shared/git-exact-cohort.ts:194-215 | Accepts exactly the plans without a bad entry, reports the first bad one, and returns the same entries in path order. |
| CohortCommit.StagePlan | extensions/_shared/git-exact-cohort.ts:302-319 | Staging succeeds exactly when every put can be placed, and the tree is the frozen one overlaid with the plan and nothing else. |
| CohortCommit.OverlaysMeans | extensions/_shared/git-exact-cohort.ts:302-319 | A valid plan is laid over a tree exactly when every put file is there with its mode and content, no deleted one is, and the rest is as before. |
| CohortCommit.DeltaIsPlan | extensions/_shared/git-exact-cohort.ts:321-351 | The delta check passes exactly when every step is a real change that keeps the object type. |
| CohortCommit.PrepareExactCohortCommit | extensions/_shared/git-exact-cohort.ts:288-380 | Succeeds exactly for valid, non-empty plans of real, type-keeping, placeable changes; the candidate has the tree with the plan applied, file by file, and the frozen commit as only parent. |
| CohortCommit.PlanRootIsPreparedRoot | extensions/_shared/git-exact-cohort.ts:226-245 | The root announced for a plan, in whatever order, is the root of the prepared commit. |
| CohortCommit.RealChangesAreNotEnough | extensions/_shared/git-exact-cohort.ts:302-351 | Counterexamples: a directory replaced by a file in one cohort, and a file put over a symlink, are real changes and still refused. |
| CohortIndex.BatchMeans | extensions/_shared/git-exact-cohort.ts:454-530 | What a batch of index records leaves at every path. |
| CohortIndex.SharedIndex.ConvergeExactCohortIndex | extensions/_shared/git-exact-cohort.ts:454-530 | Fails with the index untouched exactly when some cohort path is neither frozen nor at the ref (or is a directory or conflicted); otherwise all cohort paths are at the ref; the outside is unchanged exactly when no unowned line is in the way. |
| CohortIndex.ConvergingAgain | extensions/_shared/git-exact-cohort.ts:454-530 | Converging a second time changes nothing. |
| CohortIndex.FailureCanFollowTheBatch | extensions/_shared/git-exact-cohort.ts:500-530 | Counterexample to all-or-nothing: an unowned staged line in the way makes the call fail after the batch was applied. |
| CohortIndex.PruneNoops | extensions/_shared/canonical-git-runtime.ts:1203-1226 | Keeps exactly the steps that are not no-ops, in order. |
| CohortIndex.PruningKeepsRealChanges | extensions/_shared/canonical-git-runtime.ts:1203-1226 | Pruning keeps exactly the real changes if and only if no delete names a directory or a gitlink. |
| DeviceMerge.UnionL1 | extensions/_shared/device-join-coordinator.ts:260-287 | The event union on every path; it fails exactly when some path is refused, with the first such path in order. |
| DeviceMerge.MachineAreas | extensions/_shared/device-join-coordinator.ts:249-258 | The event and view areas, by the names of their directories. |
| DeviceMerge.MergeOrdinaryPaths | extensions/_shared/device-join-coordinator.ts:400-422 | The three-way rule on every ordinary path; it fails exactly on a two-sided difference, with the first such path in order. |
| DevicePrepare.AssembleTree | extensions/_shared/device-join-coordinator.ts:424-441 | Succeeds exactly for maps in which no path is both file and directory, and then gives that map. |
| DevicePrepare.AncestorsAre | extensions/_shared/device-join-coordinator.ts:199-208 | The computed ancestor set is the ancestry relation. |
| DevicePrepare.MergeBaseIsBest | extensions/_shared/device-join-coordinator.ts:523-534 | There is a single merge base exactly when some common ancestor is a descendant of all others, and then it is that one. |
| DevicePrepare.ValidateLinearCanonicalTransition | extensions/_shared/device-join-coordinator.ts:389-398 | Accepts exactly the linear transitions that only add events and carry the views their events build. |
| DevicePrepare.LinearMeans | extensions/_shared/device-join-coordinator.ts:389-398 | A linear transition keeps every event unchanged and carries just the views its own events build. |
| DevicePrepare.MergeDivergent | extensions/_shared/device-join-coordinator.ts:532-547 | Succeeds exactly when a join exists, and gives it. |
| DevicePrepare.JoinMeans | extensions/_shared/device-join-coordinator.ts:532-547 | What a joined tree holds, area by area: every event of either head and no other; the views built from just those events; elsewhere the side that changed the base, or what both agree on. |
| DevicePrepare.PrepareDeviceJoin | extensions/_shared/device-join-coordinator.ts:480-553 | Succeeds exactly when the heads lead to a tree; status, base and candidate are determined, and the candidate descends from both heads. Divergent heads fail as ambiguous exactly when no common ancestor is best, and otherwise the join is over that ancestor and holds what it must, area by area; linear heads give the later one, after a linear transition. |
| DevicePrepare.PreparedUnique | extensions/_shared/device-join-coordinator.ts:1129-1198 | The prepared join is determined by the two heads, so recovery can recompute it. |
| DevicePrepare.LeadsToSymmetric | extensions/_shared/device-join-coordinator.ts:480-553 | Joining H with U and U with H lead to the same tree or both fail, for linear and divergent heads alike. |
| DevicePrepare.LeadsToUnique | extensions/_shared/device-join-coordinator.ts:480-553 | Two heads lead to at most one tree. |
| DevicePrepare.DevicesAgree | extensions/_shared/device-join-coordinator.ts:480-553 | Two devices joining each other arrive at the same tree. |
| DevicePrepare.EventsSurvive | extensions/_shared/device-join-coordinator.ts:541-542 | Every event of either head is in the joined tree, unchanged. |
| DevicePrepare.OrdinaryFollowsThreeWay | extensions/_shared/device-join-coordinator.ts:400-422 | Outside the machine-owned areas the joined tree follows the three-way rule on every path. |
| DevicePrepare.LocalEventsKept | extensions/_shared/device-join-coordinator.ts:1054-1055 | The candidate keeps every event of the local head. |
| DeviceOrder.TreeDelta | extensions/_shared/device-join-coordinator.ts:555-560 | One item per path that differs, with its two states, and no other. |
| DeviceOrder.WriteOrderMeans | extensions/_shared/device-join-coordinator.ts:1046-1054 | The write order lists the same items, all deletions before all writes. |
| DeviceOrder.NeverBlocked | extensions/_shared/device-join-coordinator.ts:1046-1068 | In that order no write ever meets a file in a parent position or a non-empty directory at its target. |
| DeviceOrder.ReachedMeans | extensions/_shared/device-join-coordinator.ts:1055-1068 | After any number of writes the items written are at M, and every other path is as it was. |
| DeviceOrder.ReachedAgain | extensions/_shared/device-join-coordinator.ts:1032-1068 | A run that starts over from a point on the way comes through the same worktrees. |
| DeviceOrder.AscendingOrderBlocks | extensions/_shared/device-join-coordinator.ts:1046-1054 | Plain path order would write a file before the deletion that makes room for it; the write order does not. |
| DeviceGuard.GuardStays | extensions/_shared/device-join-coordinator.ts:1211-1220 | Whatever part of the transition is done, all the checks made before it pass again, as long as what stands behind links is clear there. |
| DeviceGuard.RefusesWhatItMust | extensions/_shared/device-join-coordinator.ts:606-1030 | The checks refuse whatever the trees themselves forbid: a changed path staged or edited in a third state, not writable, or with a leaf in its way; a canonical path that is edited though it does not change; a canonical line or view file of neither tree. |
| DeviceGuard.PlainExactly | extensions/_shared/device-join-coordinator.ts:1055-1068 | For an item whose turn has come or is over, writing is plain exactly when no link hides another state of it. |
| DeviceGuard.StraightFrom | extensions/_shared/device-join-coordinator.ts:1032-1068 | When what stands behind links is clear all the way, the rest of the run from any point on it is plain. |
| DeviceGuard.ClearIsExact | extensions/_shared/device-join-coordinator.ts:1200-1236 | The exact condition for surviving every crash: from each point on the way all checks pass and the rest of the run is plain if and only if, after every number of writes, each changed or canonical path that is looked up through a link shows its state in M, or the state in H it is still due to leave. |
| DeviceGuard.PlainTreesAreClear | extensions/_shared/device-join-coordinator.ts:625-651 | That condition holds, whatever stands behind links, when no link of the worktree or of M stands above a changed or canonical path and no leaf at or above a view root. |
| DeviceGuard.AlwaysVerified | extensions/_shared/device-join-coordinator.ts:1077-1114 | The final verification of a finished transition passes if and only if no deleted path is found as a leaf through a link, shared canonical paths found through one are intact, and the view areas list nothing else. |
| DeviceJournal.EventsCreated | extensions/_shared/device-join-coordinator.ts:1057-1058 | An event path of the delta is always a creation. |
| DeviceJournal.RecomputedExactly | extensions/_shared/device-join-coordinator.ts:1129-1198 | The journal is accepted exactly when a prepared join wrote it. |
| DeviceJournal.BatchMoves | extensions/_shared/device-join-coordinator.ts:934-953 | What the delta index batch leaves at every path. |
| DeviceJournal.TreesArrived | extensions/_shared/device-join-coordinator.ts:1032-1075 | What a finished run leaves, said of the two trees: the paths that differ are at M in worktree and index, all others as they were. |
| DeviceJournal.Device.MoveHead | extensions/_shared/device-join-coordinator.ts:1222-1231 | The compare-and-set of HEAD behind the gate, exactly, with somebody committing in between or not: the result, where HEAD is, and the durable write it takes. |
| DeviceJournal.Device.WriteItem | extensions/_shared/device-join-coordinator.ts:674-764 | A write is refused exactly when a file, link or non-empty directory is in the way, and otherwise changes one leaf; a deletion through a link removes what stands behind it instead, and fails when the emptied parents cannot be removed. |
| DeviceJournal.Device.WriteNext | extensions/_shared/device-join-coordinator.ts:1055-1068 | One round of the loop takes the item to M exactly when it is plain, unless it strays or the process dies. |
| DeviceJournal.Device.WriteAll | extensions/_shared/device-join-coordinator.ts:1055-1068 | The writing loop takes every item to M and changes nothing else if and only if every step is plain, unless a deletion strays through a link or the process dies; a crash then leaves one of the worktrees on the way. |
| DeviceJournal.Device.ConvergeDeltaIndex | extensions/_shared/device-join-coordinator.ts:934-964 | Every delta line is at M afterwards; the call fails exactly when a staged path outside the delta was in the way, which is then gone. |
| DeviceJournal.Device.WriteDelta | extensions/_shared/device-join-coordinator.ts:1032-1068 | The worktree half: done without straying only when every step is plain; when what stands behind links is clear, the journal is resumable at every crash point. |
| DeviceJournal.Device.MoveIndexAndClear | extensions/_shared/device-join-coordinator.ts:1069-1075 | The index half, the verification and the removal of the journal: it fails exactly for a staged path in the way or a verification that does not pass, and the journal goes only on success. |
| DeviceJournal.Device.FinishJournal | extensions/_shared/device-join-coordinator.ts:1032-1075 | From HEAD at M, with enough writes and no staged path in the way: finished without straying if and only if the run is straight; when what stands behind links is clear, finished or still resumable. |
| DeviceJournal.Device.MoveAndFinish | extensions/_shared/device-join-coordinator.ts:1269-1293 | Once the journal is written: published, stale without a journal, stranded with HEAD a third commit and nothing else changed, or on its way, and then resumable when what stands behind links is clear. A lost compare-and-set strands the journal exactly when fewer than two durable writes are left. |
| DeviceJournal.Device.CarryOn | extensions/_shared/device-join-coordinator.ts:1221-1236 | The part of a recovery that changes something: HEAD is moved if that is due, and the run finished, with every ending described. |
| DeviceJournal.Device.RecoverJournal | extensions/_shared/device-join-coordinator.ts:1200-1236 | Without a journal nothing happens; a journal that fails a check changes nothing, and what the trees forbid is always refused. A resumable one is always stranded when a third commit wins the race, and otherwise, with the gate open, enough writes and no staged path in the way, finishes without straying if and only if the run is straight. When what stands behind links is clear, it fails only for a closed gate, a lost compare-and-set or an obstructed index and stays resumable. |
| DeviceJournal.Device.RecoverAcrossCrashes | extensions/_shared/device-join-coordinator.ts:1200-1236 | Through any number of crashes, closed gates and foreign commits the journal stays until the final verification has passed. When what stands behind links is clear, recovery stays resumable until it has finished or a third commit has stranded it, and loses only index lines in the way of an added path; undisputed, two runs that live long enough always finish, and with no line in the way one does and nothing outside the delta changes. |
| DeviceJournal.Device.PublishPreparedDeviceJoin | extensions/_shared/device-join-coordinator.ts:1243-1293 | Publishing ends published, stale or with nothing to do; published without straying, the paths that differ are at M in worktree and index and all others as they were. What the trees forbid is refused before anything changes; a crash or error leaves nothing changed, a journal of this join on its way, or a stranded one. With the checks passed: a lost compare-and-set ends stale with three durable writes and strands the journal with one or two; left alone with enough of them, it publishes without straying if and only if the run is straight, and with a staged path in the way (and links clear) fails once and can be resumed. A journal found first is settled or refused. |
| DeviceJournal.FirstJoin | extensions/_shared/device-join-coordinator.ts:1243-1293 | An instance: a device one commit behind, left alone and given ten durable writes, ends with that commit in HEAD, worktree and index. |
| DeviceJournal.ObstructedJoin | extensions/_shared/device-join-coordinator.ts:934-964 | An instance: with a staged file where the join needs a directory all checks pass, the first run fails after HEAD moved, the next one finishes, and the staged line is gone. |
| DeviceJournal.StrandedJoin | extensions/_shared/device-join-coordinator.ts:1269-1288 | An instance: somebody commits before the compare-and-set and the process dies before it removes its journal; HEAD is their commit, the journal stays, and the next run, whatever it meets, refuses it and changes nothing. |
| DeviceJournal.LinkedJoin | extensions/_shared/device-join-coordinator.ts:625-651 | Counterexample: a directory moved in M with a link to the new place left behind. All checks pass, HEAD moves to M, the run fails, and no number of later runs ever removes the journal. |
| CausalSort.KeysDiffer | extensions/_shared/canonical-l2-reconciler.ts:57-60 | No two events of a validated set have the same layer key. |
| CausalSort.KeyDecides | extensions/_shared/canonical-l2-reconciler.ts:57-60 | The layer key puts the creation time before the device, the device before the sequence number (a missing one first), and that before the id. |
| CausalSort.OrderIsPermutation | extensions/_shared/canonical-l2-reconciler.ts:62-98 | The causal order lists every event exactly once. |
| CausalSort.OrderIsLinearExtension | extensions/_shared/canonical-l2-reconciler.ts:62-98 | On an acyclic set every in-set parent comes before its child. |
| CausalSort.GreedyIsLeast | extensions/_shared/canonical-l2-reconciler.ts:74-90 | On an acyclic set the order is the least, under the layer key, of all listings with parents first. |
| CausalSort.WinnerHasNoChild | extensions/_shared/canonical-l2-reconciler.ts:145-150 | The winner of an acyclic set has no child in the set. |
| CausalSort.LeftoversBlocked | extensions/_shared/canonical-l2-reconciler.ts:92-97 | What is appended at the end is exactly held back by a cycle: each such event has a parent in the set that is held back too. |
| CausalSort.BuildGraph | extensions/_shared/canonical-l2-reconciler.ts:63-73 | The counters and child lists hold every in-set parent entry once, repeated entries included. |
| CausalSort.ReleaseChildren | extensions/_shared/canonical-l2-reconciler.ts:81-87 | Releasing the children of a placed event decrements their counters once per entry and queues those that reach zero. |
| CausalSort.TopoSortKnowledgeEventsV1 | extensions/_shared/canonical-l2-reconciler.ts:62-98 | The algorithm computes the causal order of the set, whatever the order of its input. |
| ScanRecords.ReconstructReadsBack | extensions/_shared/l1-schema-registry.ts:426-485 | The payload of a validated file rebuilds the record that validation gave, with its envelope written out and read again; that is the record itself exactly when the envelope survives this. |
| ScanRecords.ValidatesExactly | extensions/_shared/l1-schema-registry.ts:265-374 | A file is accepted exactly when it parses, its schema has one role, its envelope, body and ids check out and it lies at the path of its id; the record is the envelope's own. |
| ScanCache.DamageIsHarmless | extensions/_shared/l1-validated-scan-cache.ts:436-464 | A row whose columns were changed behind its digest is found by no reader of any epoch; every other row is found as before, and the table stays trustworthy. |
| ScanCache.OpenScanCache.constructor | extensions/_shared/l1-validated-scan-cache.ts:322-368 | Opening keeps the rows of the same epoch and empties the table of any other. |
| ScanCache.OpenScanCache.Get | extensions/_shared/l1-validated-scan-cache.ts:436-464 | A hit is a row of this path and epoch whose payload is what validation would give; a row is passed over only for a foreign epoch or a bad digest. |
| ScanCache.OpenScanCache.Put | extensions/_shared/l1-validated-scan-cache.ts:465-499 | The row is visible at once and durable after 128 puts; a refused write rolls the batch back. |
| ScanCache.OpenScanCache.Flush | extensions/_shared/l1-validated-scan-cache.ts:404-424 | The open batch becomes durable, or, when the commit fails, is rolled back and reported. |
| ScanCache.OpenScanCache.RetainOnly | extensions/_shared/l1-validated-scan-cache.ts:501-526 | Only rows of this epoch for files that are gone are dropped; after a failed flush or clean-up none is, and nothing is reported. |
| ScanCache.OpenScanCache.Close | extensions/_shared/l1-validated-scan-cache.ts:527-531 | Closing makes everything seen durable; a commit that fails loses just the open batch and is swallowed. |
| ScanCache.ScanFileCached | extensions/_shared/l1-schema-registry.ts:512-586 | For any sound cache a file gives the error it gives without a cache, or that record, or that record read back from JSON; with a current row it is the same record exactly when the envelope survives JSON. A file with a current row is a hit, and afterwards its row is current. |
| ScanCache.ScanWholeL1Validated | extensions/_shared/l1-schema-registry.ts:487-608 | The scan returns the error of the scan without a cache, or its records up to reading back, one per file and each in the class its role and the filter give, and exactly its records when every valid envelope survives JSON; whichever database writes fail and wherever it stops, the rows stay trustworthy; finished progress is durable when the writes work, and nothing is read again when every row is current. |
| ScanCache.RunScans | extensions/_shared/l1-schema-registry.ts:487-608 | In any run of scans, by any code versions, each cut short anywhere and with any database writes failing, every answer is that of the scan without a cache. |
| Jcs.AssertValidUnicode | extensions/_shared/jcs.ts:74-85 | The scan accepts exactly the strings in which every surrogate is half of a pair. |
| Jcs.SortedOrder | extensions/_shared/jcs.ts:48 | Sorting an object's own keys gives the same list whatever their insertion order. |
| Jcs.Normalize | extensions/_shared/jcs.ts:31-61 | Computes the normal form, or the first error in key order. |
| JcsText.StringReadBack | extensions/_shared/jcs.ts:65 | An escaped string reads back to itself. |
| JcsText.EscapeIsShortest | extensions/_shared/jcs.ts:63-66 | No text that stands for a code unit inside a string is shorter than the one written for it. |
| JcsText.ReadBackValue | extensions/_shared/jcs.ts:63-72 | The text of a value in which no array is a single hole reads back, whatever follows it, to the value with holes and members in the order of the text. |
| JcsText.RenderedInOrder | extensions/_shared/jcs.ts:63-72 | In the text of any value, at every depth, member names strictly ascend: at the first code unit that differs the smaller comes first, and a proper prefix comes first. |
| JcsText.DecodesCollapsed | extensions/_shared/jcs.ts:63-72 | Any rendered text reads back to the value with its lone holes gone, and is a JSON text exactly when that has no hole. |
| JcsText.DecodesExactly | extensions/_shared/jcs.ts:63-72 | It reads back to the value itself exactly when no array is a single hole, and does so as a JSON text exactly when there is no hole at all. |
| JcsText.SameText | extensions/_shared/jcs.ts:63-72 | Two normal forms have the same text exactly when they differ at most in arrays of one hole against empty arrays. |
| JcsText.RenderInjective | extensions/_shared/jcs.ts:63-72 | Two normal forms in which no array is a single hole have the same text only if they are equal. |
| JcsText.TextIsItsOwn | extensions/_shared/jcs.ts:63-72 | A text belongs to one value alone exactly when no array in that value is empty or a single hole. |
| JcsText.HolesCollide | extensions/_shared/jcs.ts:43-70 | Counterexample: an empty array and an array of one hole have the same text. |
| JcsText.NormalizedShapes | extensions/_shared/jcs.ts:43 | Normalising keeps every array's length and holes, at any depth. |
| JcsText.NormalizedExactly | extensions/_shared/jcs.ts:31-61 | Normalising succeeds exactly for inputs in which, at every depth, all is representable, and denotes the same value. |
| JcsText.OrderIrrelevant | extensions/_shared/jcs.ts:48 | Key order at any depth changes neither the normal form nor the error. |
| JcsText.NormalizeIdempotent | extensions/_shared/jcs.ts:31-61 | Normalising twice is normalising once. |
| JcsText.CanonicalizeJcs | extensions/_shared/jcs.ts:19-21 | Succeeds exactly for inputs that can be represented. The names of the text, read back in its order, strictly ascend by code unit at every depth; it decodes to a value the input denotes when no array is a single hole, to the normal form exactly then, and as JSON exactly when the input has no hole. |
| JcsText.SameTextSameValue | extensions/_shared/jcs.ts:19-21 | For any two inputs the texts are equal if and only if the normal forms agree up to lone holes against empty arrays; when no array of either input is a single hole, if and only if they are equal. |
| KeyedQueue.PruneCompleted | extensions/_shared/keyed-detached-queue.ts:76-85 | Keeps the unexpired entries, and of those the newest 64. |
| KeyedQueue.PrunedRecent | extensions/_shared/keyed-detached-queue.ts:76-85 | Up to the limit, a job is remembered exactly when it was done in the last fifteen minutes. |
| KeyedQueue.CountsAfter | extensions/_shared/keyed-detached-queue.ts:115-143 | How a change of one slot moves the counts of waiting, active and running keys. |
| KeyedQueue.SettleKeeps | extensions/_shared/keyed-detached-queue.ts:87-94 | Settling a slot that is idle or sound restores the invariant and releases its waiters. |
| KeyedQueue.EnqueueKeeps | extensions/_shared/keyed-detached-queue.ts:145-164 | Enqueuing keeps the invariant. |
| KeyedQueue.FireKeeps | extensions/_shared/keyed-detached-queue.ts:104-126 | A wake-up keeps the invariant. |
| KeyedQueue.FinishKeeps | extensions/_shared/keyed-detached-queue.ts:127-142 | The end of a run keeps the invariant. |
| KeyedQueue.RejectKeeps | extensions/_shared/keyed-detached-queue.ts:130-132 | A rejection keeps the invariant while its error is being reported. |
| KeyedQueue.WaitKeeps | extensions/_shared/keyed-detached-queue.ts:187-195 | A new waiter is on a key that is not idle. |
| KeyedQueue.KeyedDetachedQueue.SettleSlot | extensions/_shared/keyed-detached-queue.ts:87-94 | The slot and waiters after settling, and the invariant. |
| KeyedQueue.KeyedDetachedQueue.Enqueue | extensions/_shared/keyed-detached-queue.ts:145-164 | The whole new state; the job is refused exactly when it is running, waiting or recently done, and an accepted job is the one that waits. |
| KeyedQueue.KeyedDetachedQueue.Fire | extensions/_shared/keyed-detached-queue.ts:104-126 | The whole new state after a wake-up; the waiting job starts exactly when none runs. |
| KeyedQueue.KeyedDetachedQueue.Resolve | extensions/_shared/keyed-detached-queue.ts:127-142 | The whole new state after a fulfilled job. |
| KeyedQueue.KeyedDetachedQueue.Reject | extensions/_shared/keyed-detached-queue.ts:130-132 | The whole new state after a rejected job, which still occupies its key. |
| KeyedQueue.KeyedDetachedQueue.Reported | extensions/_shared/keyed-detached-queue.ts:133-142 | The whole new state after the error was reported. |
| KeyedQueue.KeyedDetachedQueue.Cancel | extensions/_shared/keyed-detached-queue.ts:167-185 | The whole new state; true exactly when something waiting was dropped or something running was newly aborted. |
| KeyedQueue.KeyedDetachedQueue.WaitForIdle | extensions/_shared/keyed-detached-queue.ts:187-195 | Resolved at once exactly for an idle key, otherwise registered. |
| KeyedQueue.KeyedDetachedQueue.NextEvent | extensions/_shared/keyed-detached-queue.ts:104-142 | The next event of a key, a job failing or not, brings it closer to rest and loses no waiter. |
| KeyedQueue.KeyedDetachedQueue.DrainKey | extensions/_shared/keyed-detached-queue.ts:104-142 | Left alone, whichever of its jobs fail, a key comes to rest after at most five events, and all who waited for it have been told. |
| KeyedQueue.Run | extensions/_shared/keyed-detached-queue.ts:104-195 | In any run jobs are conserved, a waiting job has a run or a wake-up ahead of it, and nobody waits for an idle key. |

## Left out

- Running git, processes, file-system calls, fsync, real paths and the check that the journal's own directory is a real one: commits, trees, index and worktree are values.
- Digest functions, object ids, commit dates and identities, and the text of commit messages beyond a constant.
- The v1 and v2 recovery schemas, push events, the history classifier, locks and worker budgets: acceptance and mutual exclusion are assumed.
- Eligibility clauses E8 to E15, E17 to E27, certificates C, C2, D and F, and the artifact receipts of the merge: one flag each for what they decide together.
- The drain's receipt validation, metadata tails, metadata deferral, and the second search for an existing operation without its own recovery rows.
- Diagnostics, redaction, records, memos and reporters of the runtime; of its journal only the phase that a later start reads.
- The ignore-file migration of a device join (status canonicalize), legacy ignored views, and named temporary files of atomic writes.
- Directory listing, symlink and escape checks, legacy cohort checks and the inventory fingerprint of the scan.
- Front matter, markdown and manifest text of the reconciler; grouping of events by identity before the sort.
- Number formatting inside JSON.stringify: a finite number is its text.
- RecoveryDrain.RequestDrain: takes the raw plan as given, because receipts and ownership are validated elsewhere.
- DeviceJournal.Device.PublishPreparedDeviceJoin: the canonical drain that settles before publishing is not run.
- DeviceJournal.Device.WriteAll: an untracked empty directory at the path of a new event passes every check, and creating the event then fails after HEAD has moved; the map of leaves holds no empty directory.
- DeviceJournal.Device.RecoverAcrossCrashes: others commit between the gate and the compare-and-set of a run, not between two runs or after the journal is gone.
- RecoverySession.RecoverySession.Append: a step of the protocol is demanded, so the `identical` outcome for an event that is already there does not come up.
- RecoverySession.RecoverySession.RecordDrainPreparedV3: called on the last claimed slot, as its one caller does; the original looks at no slot.
- KeyedQueue.KeyedDetachedQueue.Fire: the callback looks its slot up by key, because a slot with a wake-up or a run is never replaced; the slot object the original captures is not modelled.
- KeyedQueue.KeyedDetachedQueue.WaitForIdle: waiting for all keys at once is one wait per key.
