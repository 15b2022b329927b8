# Verified model of the rhiza checkpoint archive

A Dafny model of the rhiza checkpoint archive and of the smaller components around it, with proofs of what
they promise. `dafny verify dfyconfig.toml` checks everything.

The archive keeps, per recovery generation, a *checkpoint manifest* in an object store: a base (genesis or a
snapshot), contiguous hash-chained log segments, and a tip. Publishers advance it by compare-and-swap; a
garbage collector plans, fences, retires and deletes under a control object that holds leases, a fence, a
generation catalog and a Draining/Deleting barrier. Nothing else synchronises them.

## How the model is laid out

| file | content |
|---|---|
| `Model.dfy` | identities, keys, entries, manifests, control object, plans, reports, store |
| `Checkpoint.dfy` | manifest validation, restore, append, migration, compaction |
| `Publication.dfy` | placing a batch, acknowledgements |
| `Copying.dfy` | the copy of a checkpoint for a new recovery generation, and what a manifest restores to |
| `PublishLoop.dfy` | the publication retry loops and the generation roll over a store others write to |
| `Publisher.dfy` | a publisher session: queueing, coalescing, answering |
| `GcControl.dfy`, `GcControlObject.dfy` | operations on the control object: as functions, and as retry loops that change a copy |
| `GcHistory.dfy`, `GcLaws.dfy` | all histories of the control object, and what each operation is for |
| `GcPlanning.dfy` | planning a collection: soundness, completeness, and a plan's way through the control object |
| `Archive.dfy` | the whole archive as a state machine, one store operation per step |
| `ArchiveSafety.dfy`, `ArchiveProof.dfy`, `ArchiveActors.dfy` | its invariant and why every step keeps it |
| `ArchiveTheorems.dfy`, `ArchiveLog.dfy`, `ArchiveCopies.dfy`, `ArchiveDurability.dfy` | theorems about whole runs |
| `ArchiveEvidence.dfy`, `ArchivePlans.dfy`, `ArchiveExecution.dfy` | that the books tell what happened, where plans come from and how long leases last, and that calls nobody interferes with get through |
| `ArchiveReach.dfy`, `ArchiveLimits.dfy`, `ArchiveLapses.dfy`, `ArchiveLosses.dfy` | concrete runs that show where safety and durability end, with the exact conditions |
| `Keys.dfy` | printed object keys and their recognisers |
| `ObjStore.dfy` | the object store wrapper and its lock-based compare-and-swap |
| `Client.dfy`, `Profile.dfy`, `Transport.dfy` | the client's request loop, the profiler's histograms and seed, the transport's partition and frames |

The main results, in one sentence each:

* In every state of every run, however publishers, snapshot publishers, readers, copiers, planners and executors
  interleave, crash and resume, everything the manifest of a generation in force references is in the store and
  intact (`NothingInForceIsMissing`).
* If publishers draw their batches from one committed log per generation, every such checkpoint restores, to
  exactly that log up to its tip (`EveryCheckpointIsTheLog`); a restore that completes returns the log
  (`EveryRestoreIsTheLog`), and one whose lease stays live never fails (`LeasedRestoreNeverFails`).
* An acknowledged publication is durable exactly as long as no copier withdraws the generation's manifest
  (`AcknowledgedIsDurable`, `DurableExactlyUntilWithdrawn`). The code does lose one otherwise: a copier that has
  published the manifest of the next generation deletes it again when it finds the source changed, even if another
  copier has found it in place and returned Ok, and a publisher has been answered from it, meanwhile
  (`AcknowledgementCanBeLost`). A manifest that no copier can still withdraw is safe for good (`SettledForGood`).
* A copy that returns Ok restores to what its source restored to (`FinishedCopyRestoresSource`), was the target's
  manifest at a moment of the call, and stays, extended, exactly until a copier withdraws it
  (`FinishedCopyWasStored`).
* A plan is sound and complete (`PlanIsSound`, `PlanIsComplete`) and fits the control object it was made from
  (`PlanRunsThrough`); collection is all-or-nothing, resumable, and ends in one report per plan
  (`RetirementIsAllOrNothing`, `OneReportPerPlan`, `ReportedCandidatesAreGone`), which tells what happened
  (`ReportIsTrue`); and an execution that holds its barrier finishes whatever earlier ones left
  (`ExecutionFinishes`).
* A lease lasts exactly as long as granted and a barrier until its time is over, whatever strangers call
  (`AcquireGrants`, `RenewGrants`, `LeaseLasts`, `BarrierStands`).
* A publication, a snapshot publication or a generation roll fails only for a stated reason, such as another
  manifest in the target or a rewrite by others in every attempt (`PublishCommitted`, `PublishSnapshot`,
  `RollGeneration`).

## Hypotheses

* Objects are structured values; JSON and the segment codec are inverse pairs. Digests are arbitrary functions.
  `CollisionFreeDigest`, `CollisionFreePlanHash` and `CollisionFreeEntryHash` appear in the `requires` of what
  needs them; `WorldOk` is the first two.
* Every successful write gives a fresh version. There is one clock; it never goes back, and a caller's reading
  of it never leads it.
* `LeasesHeld`: a snapshot publisher's lease is live from the verification of its object to its manifest swap,
  because the object is created once, outside the retry loop; likewise a copier's target lease from its first
  verified object to the target's manifest; a *tracked* reader's lease is live from acquisition to the end. Segment
  publishers need no such hypothesis: their lease may lapse and be renewed. `LeasesAreNeeded` exhibits a run that
  violates this hypothesis alone and ends with a missing object. What a caller has to do for it is to finish
  within the duration of its last renewal (`LeaseLasts`).
* `InTenure`: validating the fence and deleting one candidate is one step, and an executor deletes an object of the
  root only in the barrier tenure in which it read and fenced the root manifest, or else when a second look finds
  the root manifest as planned and written in the current tenure. Objects of swept generations may be deleted in
  any tenure. `TenureIsNeeded` exhibits a run that violates this hypothesis alone and ends with a missing object.
* `Disciplined` is the last two together.
* For the log theorems (`LogRun`): publishers draw their entries from the committed log of their generation, and a
  copy is made between generations of one log.
* A run starts from any store that is itself consistent (checkpoints of either format, orphans included), an
  empty control object and no process.

## Model

| member | source | states |
|---|---|---|
| `Checkpoint.ValidateManifest` | crates/rhiza-archive/src/lib.rs:3281-3390 | the validation loop accepts exactly the manifests whose segments continue the base without gap, overlap or broken link and end at the tip |
| `Checkpoint.ValidateDecodedEntries` | crates/rhiza-archive/src/lib.rs:3245-3279 | accepts exactly the entries that are a hash chain from the expected tip |
| `Checkpoint.RestoreCheckpoint` | crates/rhiza-archive/src/lib.rs:2042-2091 | the restore loop computes the restore function, error for error |
| `Checkpoint.RestoredIsChained` | crates/rhiza-archive/src/lib.rs:2065-2086 | what restores is a hash chain from the base to the manifest's tip, with one entry per index |
| `Checkpoint.ValidManifestCovers` | crates/rhiza-archive/src/lib.rs:3170-3176 | every index between base and tip of a valid manifest is covered by the record that lookup finds |
| `Checkpoint.AppendExtends` | crates/rhiza-archive/src/lib.rs:1464-1471 | appending a chained batch keeps the manifest valid (unless it ends at the last representable index, exactly then not) and changes nothing already covered |
| `Checkpoint.MigratePreserves` | crates/rhiza-archive/src/lib.rs:1315-1369 | migrating a manifest of the first format gives a valid one of the current format that extends it and restores to the same over any store |
| `Checkpoint.CompactCuts` | crates/rhiza-archive/src/lib.rs:1624-1645 | a compaction cuts the segment list at one boundary, whose end is the new base |
| `Checkpoint.CompactExtends` | crates/rhiza-archive/src/lib.rs:1606-1646 | compaction keeps the manifest valid, keeps the tip, and keeps every covered index above the snapshot |
| `Checkpoint.CompactExactly` | crates/rhiza-archive/src/lib.rs:1604-1640 | a snapshot has already taken effect exactly if it is the base, replaces the base exactly if it lies above it and the manifest has passed through its anchor, and otherwise is refused, with the error that says which |
| `Checkpoint.CompactPreservesRestore` | crates/rhiza-archive/src/lib.rs:1606-1668 | after a snapshot at k is published, restore gives that snapshot and exactly the entries after k that it gave before |
| `Publication.ArchivedHashIsRestored` | crates/rhiza-archive/src/lib.rs:3157-3184 | the hash looked up at an index is the hash of the restored entry with that index |
| `Publication.SuffixStartChains` | crates/rhiza-archive/src/lib.rs:3116-3155 | the part of a valid batch chosen for publication continues the manifest, so the check after it cannot fail |
| `Publication.PlacedExactly` | crates/rhiza-archive/src/lib.rs:3116-3155 | a valid batch that ends above the tip is placed, at the entry after the tip, if and only if it starts at or below there and claims the tip's hash for the tip; otherwise it is refused as a gap or as a conflict at the tip |
| `Publication.CoveredRefusedExactly` | crates/rhiza-archive/src/lib.rs:3125-3129 | a batch that ends at or below the tip is refused if and only if the checkpoint does not acknowledge it, as a conflict at its last index, or as invalid if the base has passed it |
| `Publication.TipHashIsArchived` | crates/rhiza-archive/src/lib.rs:3139-3148 | the archived hash at the tip is the tip's own |
| `Publication.CoveredBatchIsAcknowledged` | crates/rhiza-archive/src/lib.rs:3125-3129 | "nothing left to publish" is answered exactly when the restored checkpoint holds the batch's last entry at its index |
| `Publication.AppendedBatchIsAcknowledged` | crates/rhiza-archive/src/lib.rs:1480-1489 | after a successful swap the restored checkpoint holds the batch's last entry |
| `Publication.AcknowledgedLogsAgree` | crates/rhiza-archive/src/lib.rs:3083-3184 | with a collision-free entry hash, an acknowledged batch and the restored checkpoint agree on every index both hold |
| `Copying.CopyIsValid` | crates/rhiza-archive/src/lib.rs:1971-1979 | the copy of a valid manifest is valid for the next recovery generation |
| `Copying.CopyRestoresAsSource` | crates/rhiza-archive/src/lib.rs:1903-1979 | wherever its objects are intact, the copy restores to exactly what the source manifest restores to |
| `PublishLoop.SharedStore.PublishCommitted` | crates/rhiza-archive/src/lib.rs:1425-1505 | amid arbitrary writes and deletions of others, a manifest the loop returns is valid and covers the batch; if it wrote one, that is its only write to the manifest, the manifest stored at that very moment was the one it extends, and the new segment's object had been in place; otherwise it has not touched the manifest; it fails only because the batch could not be placed against a manifest it worked from, its segment's key was taken, the manifest would be invalid or was unreadable, or others rewrote it in all attempts but the first |
| `PublishLoop.SharedStore.PublishSnapshot` | crates/rhiza-archive/src/lib.rs:1550-1680 | the same for a snapshot: what it returns is valid and based on the snapshot, whose object had been in place; what it wrote compacts the manifest stored at that very moment, keeping its tip; it fails only because the snapshot is not what it claims, its object was missing at some moment, it does not fit a manifest the call worked from, or the manifest was unreadable or rewritten in all attempts but the first |
| `PublishLoop.SharedStore.CreateVerified` | crates/rhiza-archive/src/lib.rs:2027-2040 | create-or-keep, then verify: succeeds exactly when the key then holds an object with this size and digest; manifests stay untouched |
| `PublishLoop.SharedStore.RestoreAmidOthers` | crates/rhiza-archive/src/lib.rs:2042-2091 | the restore loop with others acting between downloads returns what the manifest restores to wherever its objects are intact; it fails only if some object was not intact at some moment or the manifest restores nowhere |
| `PublishLoop.SharedStore.CopyObjects` | crates/rhiza-archive/src/lib.rs:1903-1971 | the copy loop amid others: each object was in place under the target's key and intact at some moment of the call, or one of the source's or of the target's was not; the target's manifest stays untouched |
| `PublishLoop.SharedStore.RollGeneration` | crates/rhiza-archive/src/lib.rs:1716-2025 | what it returns is the valid copy of the source manifest loaded and restores to whatever that restores to; unless adopted, the source is still as loaded, version included, and the copy restores to what the call's own restore gave; a call that fails after publishing has withdrawn the version it published; it fails only because the target is not the next of its lineage, the source was unreadable, old, or could not be restored or copied at some moment, another manifest was in the target, or the source changed after publication |
| `PublishLoop.PublishedIsAcknowledged` | crates/rhiza-archive/src/lib.rs:1449-1489 | either way of returning Ok is an acknowledgement |
| `Publisher.DropRepeats` | crates/rhiza-archive/src/lib.rs:946-966 | the loop keeps each entry once, in order, and fails only on two different entries at one index |
| `Publisher.Coalesce` | crates/rhiza-archive/src/lib.rs:935-968 | fails exactly when two flushes disagree above the published index; else holds each unpublished entry once, in order, and nothing more |
| `Publisher.Answer` | crates/rhiza-archive/src/lib.rs:1141-1157 | a flush is answered Ok exactly when the publication succeeded and its manifest covers the flush's last entry; a failed publication is every flush's answer |
| `Publisher.Session.CacheObserved` | crates/rhiza-archive/src/lib.rs:1024-1052 | the cached tip never goes back; refusals are exactly the invalid, the older and the conflicting; one that reaches further, and only that, is cached |
| `Publisher.Session.Submit` | crates/rhiza-archive/src/lib.rs:1060-1076 | exactly the non-empty valid batches are queued |
| `Publisher.Session.DriveFlushes` | crates/rhiza-archive/src/lib.rs:1114-1159 | one drive empties the queue, publishes exactly the unpublished entries through the publication loop amid others' writes, which fails only on conflicting flushes or for one of its stated reasons, updates the cache on success, and answers a flush Ok exactly when the published manifest covers it |
| `GcControlObject.RetireGenerations` | crates/rhiza-archive/src/lib.rs:2846-2872 | the marking loop retires all swept generations or fails as a whole |
| `GcControlObject.RefreshLease` | crates/rhiza-archive/src/lib.rs:2622-2643 | a lease is refreshed where it stands, added if it lapsed, refused if its kind changed |
| `GcControlObject.Revise` | crates/rhiza-archive/src/lib.rs:2544-2884 | one attempt of each control operation, with its loops, computes the operation's function |
| `GcControlObject.ControlObject.Perform` | crates/rhiza-archive/src/lib.rs:2603-2654 | amid arbitrary writes of others, a control operation that returns Ok has either written exactly once, as the latest write, applying the operation to the control written just before, or left the control in force as it is; a refusal is the control in force's; a failing call has written nothing, and gives up only when others have written in every attempt |
| `GcLaws.AcquireGrants` | crates/rhiza-archive/src/lib.rs:2544-2579 | acquiring succeeds if and only if no barrier is in force; the lease is live exactly for its duration from now, of the kind asked for, and every other live lease stands |
| `GcLaws.ReleaseDrops` | crates/rhiza-archive/src/lib.rs:2581-2601 | releasing takes away exactly the leases with that id |
| `GcLaws.RenewAccepts` | crates/rhiza-archive/src/lib.rs:2603-2628 | renewing succeeds if and only if no barrier in force is deleting and the lease, while it lives, is of this kind |
| `GcLaws.RenewGrants` | crates/rhiza-archive/src/lib.rs:2619-2637 | a renewed lease, lapsed before or not, is live exactly for the duration from now, and every other live lease stands |
| `GcLaws.RenewKeepsBarrier` | crates/rhiza-archive/src/lib.rs:2638-2643 | a renewal keeps a draining barrier and makes it outlast the lease by a default lease |
| `GcLaws.SetRootExactly` | crates/rhiza-archive/src/lib.rs:2205-2234 | a root is accepted if and only if it is cataloged and no barrier is in force; then it is the root and nothing else in force changes |
| `GcLaws.RegisterExactly` | crates/rhiza-archive/src/lib.rs:2656-2693 | a registration adds an active entry with its time, or finds one, and becomes the root only where there is none; nothing else changes |
| `GcLaws.SortInOrder` | crates/rhiza-archive/src/lib.rs:2675-2681 | the catalog is put in order of epoch, configuration and generation, adding and dropping nothing |
| `GcLaws.BarrierTakenExactly` | crates/rhiza-archive/src/lib.rs:2695-2718 | a barrier in force goes only to its own plan, unchanged; otherwise it is taken if and only if the root is the plan's and the plan is fresh or resumed |
| `GcLaws.BarrierTaken` | crates/rhiza-archive/src/lib.rs:2719-2728 | a barrier taken is draining and the plan's, raises the fence to the plan's, and lasts exactly a default lease |
| `GcLaws.ResumesExactly` | crates/rhiza-archive/src/lib.rs:2711-2718 | a plan whose barrier is gone takes it up again if and only if it has retired all it sweeps |
| `GcLaws.EnterExactly` | crates/rhiza-archive/src/lib.rs:2776-2825 | the delete phase is entered if and only if the plan commands a barrier in force, with the root unchanged, and has entered before or no lease is live |
| `GcLaws.BusyUntilExactly` | crates/rhiza-archive/src/lib.rs:2799-2806 | a refusal on account of leases names exactly the time from which the plan would get in |
| `GcLaws.FenceCheckExactly` | crates/rhiza-archive/src/lib.rs:2742-2774 | the check before each deletion passes if and only if the plan commands a barrier that is deleting and no lease is live |
| `GcLaws.RetireExactly` | crates/rhiza-archive/src/lib.rs:2827-2884 | retirement succeeds if and only if the plan's barrier is deleting and every swept generation is cataloged and not retired by another plan; exactly the active ones record plan and time |
| `GcLaws.AbortExactly` | crates/rhiza-archive/src/lib.rs:2236-2257 | an abort succeeds if and only if there is no barrier or it is that operation's; only the barrier goes |
| `GcLaws.ClearExactly` | crates/rhiza-archive/src/lib.rs:2943-2971 | a clear succeeds if and only if there is no barrier or it is that plan's; the barrier goes and leases that had lapsed when the plan was made |
| `GcLaws.BarrierEndsOnlyBy` | crates/rhiza-archive/src/lib.rs:2236-2257 | a barrier changes only by being extended or entering its delete phase and disappears only when a caller's clock has reached its expiry, or by an abort or clear that names it |
| `GcLaws.BarrierStands` | crates/rhiza-archive/src/lib.rs:2695-2971 | over any history, a barrier stands until its time is over unless an abort or clear names it |
| `GcLaws.LeaseStands` | crates/rhiza-archive/src/lib.rs:2544-2654 | over any history, a lease stands until its time is over unless its own holder's calls change it |
| `GcLaws.LeasesUniqueCatalogInOrder` | crates/rhiza-archive/src/lib.rs:2544-2693 | in every reachable control state no two leases share an id and the catalog is in order |
| `GcHistory.OpKeepsControl` | crates/rhiza-archive/src/lib.rs:2544-2971 | each operation keeps lease exclusion, unique identities and a cataloged root, never lowers the fence and only grows the catalog |
| `GcHistory.OnlyRetireRetires` | crates/rhiza-archive/src/lib.rs:2827-2884 | generations become retired only by the plan holding the barrier in its delete phase |
| `GcHistory.EveryStateSafe` | crates/rhiza-archive/src/lib.rs:2544-2971 | in every reachable control state: no live lease while the barrier is deleting, unique identities, root cataloged, all-or-nothing retirement |
| `GcHistory.FenceAndCatalogNeverGoBack` | crates/rhiza-archive/src/lib.rs:2656-2740 | over any history the fence never decreases, catalog entries never vanish, Retired is permanent |
| `GcHistory.OneSweepingPlanPerFence` | crates/rhiza-archive/src/lib.rs:2695-2740 | among plans made at one fence below the ceiling, at most one that sweeps anything ever obtains the barrier, afresh or by resuming |
| `GcHistory.SecondPlanObtainsExactly` | crates/rhiza-archive/src/lib.rs:3861-3889 | both limits of that statement are exact: a second plan obtains the barrier if and only if the fence is at its ceiling or it sweeps nothing |
| `GcHistory.RetirementIsAllOrNothing` | crates/rhiza-archive/src/lib.rs:2827-2884 | in every reachable state, if a plan retired one generation it retired all it sweeps |
| `GcPlanning.PlanIsSound` | crates/rhiza-archive/src/lib.rs:2259-2384 | a plan deletes only segments and snapshots, only of its root or of generations it sweeps, and of its root nothing that a manifest with the planned digest references |
| `GcPlanning.PlanHonoursPolicy` | crates/rhiza-archive/src/lib.rs:2298-2352 | a generation is swept only if the requested number of others, none older, is kept; every deleted version had the minimum age |
| `GcPlanning.PlanIsMadeExactly` | crates/rhiza-archive/src/lib.rs:2266-2290 | a plan is made if and only if no barrier is in force and the requested root is the authoritative one and active; otherwise the error says which |
| `GcPlanning.KeptExactly` | crates/rhiza-archive/src/lib.rs:2308-2320 | the generations kept besides the root are active, each once, the requested number or else all there are |
| `GcPlanning.PlanIsComplete` | crates/rhiza-archive/src/lib.rs:2321-2360 | an active generation other than the root is swept if and only if it is not kept and none of its deletable objects is too young; a listed version is a candidate if and only if it is a deletable object of a swept generation, or one of the root that its manifest does not reference and that is old enough; no object is a candidate twice |
| `GcPlanning.PlanRecords` | crates/rhiza-archive/src/lib.rs:2361-2380 | a plan records operation, root, root digest, time, fence and catalog, is fresh, and may be executed exactly once its grace is over |
| `GcPlanning.PlanIsFreshExactly` | crates/rhiza-archive/src/lib.rs:2709-2718 | a plan obtains the barrier afresh if and only if root, fence and catalog are still those it was made from |
| `GcPlanning.PlanRunsThrough` | crates/rhiza-archive/src/lib.rs:2386-2486 | until the control it was made from changes, a plan obtains the barrier, enters its delete phase once no lease is live, retires all it sweeps, passes the check before each deletion and clears; nothing else of the control has changed but the fence and lapsed leases |
| `ArchiveTheorems.NextKeepsInv` | crates/rhiza-archive/src/lib.rs:1425-2917 | every step of every actor, copiers and their withdrawals included, keeps the archive's invariant |
| `ArchiveTheorems.NothingInForceIsMissing` | crates/rhiza-archive/src/lib.rs:2386-2486 | in every state of every run, the manifest of a generation not retired is valid and all it references is in the store and intact |
| `ArchiveTheorems.LeasedReaderFindsEverything` | crates/rhiza-archive/src/lib.rs:1701-1714 | from loading its manifest to the end, a reader whose lease stays live finds everything it references |
| `ArchiveTheorems.ReportedCandidatesAreGone` | crates/rhiza-archive/src/lib.rs:2414-2486 | once a report exists, it names the plan's candidates in order and none of them exists at its planned version again |
| `ArchiveEvidence.EvidenceIsTrue` | crates/rhiza-archive/src/lib.rs:2428-2462 | evidence goes back to an attempt of an executor of its plan on that candidate: the object was there at that version if and only if it says deleted, and was gone after |
| `ArchiveEvidence.ReportIsTrue` | crates/rhiza-archive/src/lib.rs:2463-2470 | a report says of each candidate in turn whether an execution of the plan deleted it, at its planned version, or found it missing |
| `ArchiveEvidence.DisappearsOnlyBy` | crates/rhiza-archive/src/lib.rs:2418-2435 | an object leaves the store only as the next candidate, at its planned version, of a plan being executed; a manifest only by a copier's withdrawal |
| `ArchiveEvidence.NothingBeforeGrace` | crates/rhiza-archive/src/lib.rs:2399-2403 | nothing of a plan is executed before its grace is over, and its report bears the execution's fence and a time after that |
| `ArchivePlans.EveryPlanWasMade` | crates/rhiza-archive/src/lib.rs:2259-2384 | every stored plan was made by one planner from a control object that had been in force, a root manifest that had been stored and object versions that had been there, all active generations listed |
| `ArchivePlans.LeaseLasts` | crates/rhiza-archive/src/lib.rs:2544-2654 | in every run of the archive, a lease is live until its time is over unless a call names it |
| `ArchiveExecution.ExecutionFinishes` | crates/rhiza-archive/src/lib.rs:2386-2486 | an executor that holds its barrier and is not interfered with finishes whatever earlier executions left: it ends with a result for each candidate, none that it tried is left, only candidates have gone, the report exists and the barrier is cleared |
| `ArchiveExecution.FenceIsReached` | crates/rhiza-archive/src/lib.rs:2886-2917 | an executor that has entered the delete phase and finds the root as planned reads it, rewrites it as it was and retires the plan's generations |
| `ArchiveExecution.ContendedExactly` | crates/rhiza-archive/src/lib.rs:2904-2915 | an executor whose fencing write lost goes on if and only if the root is still as planned |
| `ArchiveExecution.ReportIsAdoptedExactly` | crates/rhiza-archive/src/lib.rs:2387-2389 | an execution of a plan that has a report returns exactly that report |
| `ArchiveExecution.PublicationFinishes` | crates/rhiza-archive/src/lib.rs:1449-1489 | a publisher whose batch meets the tip gets it in if nobody interferes, on its first attempt or after a lost one |
| `ArchiveExecution.LostPublisherStartsOver` | crates/rhiza-archive/src/lib.rs:1492-1497 | a publisher that has lost its swap can start over |
| `ArchiveExecution.ReaderGoesOn` | crates/rhiza-archive/src/lib.rs:2042-2091 | a reader that has loaded its manifest always has a next step, which reads one object more or ends the restore |
| `ArchiveTheorems.BooksNeverChange` | crates/rhiza-archive/src/lib.rs:2973-3015 | plans, evidence and reports are written once and never change |
| `ArchiveTheorems.OneReportPerPlan` | crates/rhiza-archive/src/lib.rs:2386-2499 | all executions of a plan that end return one identical report, however crashed, raced and resumed |
| `ArchiveTheorems.RetiredContentIsFinal` | crates/rhiza-archive/src/lib.rs:2919-2941 | a manifest appears, changes or disappears only by a publication in that generation, or a copy to it, begun before its retirement |
| `ArchiveTheorems.RetiredIsNotRestored` | crates/rhiza-archive/src/lib.rs:1682-1714 | a restore begun after retirement never loads a manifest and returns nothing |
| `ArchiveTheorems.NextExtendsExactly` | crates/rhiza-archive/src/lib.rs:2010-2022 | one step keeps a stored manifest, extended, if and only if it is not a copier's withdrawal of the very version stored |
| `ArchiveTheorems.ManifestsOnlyExtend` | crates/rhiza-archive/src/lib.rs:1315-1369 | across any concurrent writers, while no copier withdraws it, a manifest stays valid, its tip never falls, and a covered index keeps its object |
| `ArchiveTheorems.ExtendsExactlyUntilWithdrawn` | crates/rhiza-archive/src/lib.rs:1990-2022 | that condition is exact: the manifest is there, extended, in all later states if and only if no step withdraws it |
| `ArchiveTheorems.SettledForGood` | crates/rhiza-archive/src/lib.rs:1978-2022 | a manifest that no copier can still withdraw now is never withdrawn: none waits to create it and none has published the stored version |
| `ArchiveTheorems.WithdrawingCopierStrikes` | crates/rhiza-archive/src/lib.rs:2010-2022 | conversely, a copier that is withdrawing the stored version has a step that removes it |
| `ArchiveTheorems.PublishedCopierStrikesExactly` | crates/rhiza-archive/src/lib.rs:2009-2022 | a copier that has published the stored version, stepping alone, goes on to withdraw it if and only if its source is not as it loaded it, version included, and is no threat any more otherwise |
| `ArchiveLog.ManifestRestores` | crates/rhiza-archive/src/lib.rs:3209-3279 | a valid manifest drawn from the log whose objects are intact restores to the log |
| `ArchiveLog.EveryCheckpointIsTheLog` | crates/rhiza-archive/src/lib.rs:1425-1505 | however batches are split, overlapped, retried or raced, and generations copied, every checkpoint in force restores to exactly the log up to its tip |
| `ArchiveLog.EveryRestoreIsTheLog` | crates/rhiza-archive/src/lib.rs:2042-2091 | a restore that completes, its downloads spread over other actors' steps, returns exactly the log |
| `ArchiveLog.LeasedRestoreNeverFails` | crates/rhiza-archive/src/lib.rs:2042-2091 | a restore whose lease stays live meets no missing object and fails no check |
| `ArchiveDurability.RunLoadsStored` | crates/rhiza-archive/src/lib.rs:1375-1392 | every manifest a publisher works from was the stored one at an earlier moment of the run |
| `ArchiveCopies.CompletedRestoreIsTheManifests` | crates/rhiza-archive/src/lib.rs:2042-2091 | a restore that completes, at whatever pace and with or without its lease, returns what its manifest restores to wherever the objects are intact |
| `ArchiveCopies.PublishedCopyIsComplete` | crates/rhiza-archive/src/lib.rs:1990-2009 | when a copier publishes, the target has the copy, valid and with all its objects |
| `ArchiveCopies.FinishedCopyRestoresSource` | crates/rhiza-archive/src/lib.rs:1881-2025 | a copy that returned Ok restores to whatever the source manifest loaded restores to, and after a recheck to exactly what the copier's own restore returned |
| `ArchiveCopies.FinishedCopyWasStored` | crates/rhiza-archive/src/lib.rs:1978-2025 | a copy that returned Ok, adopted or its own, was the target's manifest at a moment of that very call, and from then on is there, extended, if and only if no step withdraws it |
| `ArchiveDurability.AcknowledgedIsDurable` | crates/rhiza-archive/src/lib.rs:1394-1505 | when a publication returns Ok, the stored manifest has reached its last entry, and from that moment every state of a generation in force, until a copier withdraws the manifest, restores to the log at least up to that entry |
| `ArchiveDurability.SettledAcknowledgementIsDurable` | crates/rhiza-archive/src/lib.rs:1394-1505 | if the stored manifest reaches the last entry and no copier can still withdraw it, the acknowledgement holds for good |
| `ArchiveDurability.DurableExactlyUntilWithdrawn` | crates/rhiza-archive/src/lib.rs:1990-2022 | the condition is exact: in force, what a manifest reaches stays durable if and only if no step withdraws it |
| `ArchiveLosses.AcknowledgementCanBeLost` | crates/rhiza-archive/src/lib.rs:2010-2022 | a concrete run that meets every hypothesis: a copy adopts the manifest another copier published, registers the target and returns Ok, a publication covered by it is acknowledged, the first copier finds the source changed and withdraws the manifest, and the active generation is left without a checkpoint |
| `ArchiveLosses.WaitingCopierCatchesUp` | crates/rhiza-archive/src/lib.rs:1990-2009 | why every copier that waits to create counts as a threat: while a different manifest is stored, a publisher can bring it to exactly the copier's, and the create then takes that version for its own |
| `ArchiveLimits.TenureIsNeeded` | crates/rhiza-archive/src/lib.rs:2418-2435 | a concrete run: a stalled executor that resumes deleting in a later tenure removes an object in force |
| `ArchiveLapses.LeasesAreNeeded` | crates/rhiza-archive/src/lib.rs:1581-1668 | a concrete run, every deletion within its tenure: a snapshot publisher's lease lapses once its object is verified, a collection deletes the object and completes, the publisher renews, retries and swaps, and the manifest in force is based on a missing object |
| `ArchiveLimits.DeletionIsSafeExactly` | crates/rhiza-archive/src/lib.rs:2432-2435 | a deletion leaves nothing in force missing if and only if the generation is retired, has no manifest, or its manifest does not reference the object at that moment |
| `ArchiveLimits.RecheckedDeletionIsSafe` | crates/rhiza-archive/src/lib.rs:2418-2435 | what an executor could recheck: a root candidate may go whenever the root manifest has the planned digest, and written in the current tenure it keeps the invariant of the shared state |
| `ArchiveLimits.SnapshotSwapIsSafeExactly` | crates/rhiza-archive/src/lib.rs:1588-1668 | a snapshot's manifest swap leaves nothing in force missing if and only if the generation is retired or the snapshot object is still intact, which is what its lease is for |
| `ArchiveLimits.CopyPublishIsSafeExactly` | crates/rhiza-archive/src/lib.rs:1990-1996 | publishing a copied manifest leaves nothing in force missing if and only if the target is retired or all its objects are still intact, which is what its lease is for |
| `Keys.PrintedIsRecognised` | crates/rhiza-archive/src/lib.rs:3745-3770 | every printed segment and snapshot key is recognised for its own identity |
| `Keys.RecognisedForOneIdentity` | crates/rhiza-archive/src/lib.rs:3810-3849 | no key at all is recognised for two identities of one cluster |
| `Keys.BookkeepingIsNeverRecognised` | crates/rhiza-archive/src/lib.rs:2501-2527 | no control, plan, evidence or report key of any cluster is deletable |
| `Keys.RecognitionAgrees` | crates/rhiza-archive/src/lib.rs:3847-3849 | recognising a printed key is exactly recognising the structured key (so no manifest key is deletable) |
| `Keys.SegmentNamesExactly` | crates/rhiza-archive/src/lib.rs:3810-3825 | exactly which segment names are recognised |
| `Keys.SnapshotNamesExactly` | crates/rhiza-archive/src/lib.rs:3827-3845 | exactly which snapshot names are recognised |
| `Keys.RecognisedButNotPrinted` | crates/rhiza-archive/src/lib.rs:3818-3820 | the suffix may be repeated: recognition is wider than printing |
| `Keys.PrintInjective` | crates/rhiza-archive/src/lib.rs:3738-3770 | different keys of one cluster print differently |
| `Keys.PrintGcInjective` | crates/rhiza-archive/src/lib.rs:2501-2527 | control, plans, evidence and reports of one cluster never share a key |
| `Keys.BookkeepingIsApart` | crates/rhiza-archive/src/lib.rs:2501-2527 | nor do they share one with a checkpoint's objects |
| `ObjStore.LocalStore.CreateObject` | crates/rhiza-obj-store/src/lib.rs:311-323 | with others acting between its steps, create takes effect atomically exactly unless it is refused and then finds the key gone |
| `ObjStore.LocalStore.UpdateObject` | crates/rhiza-obj-store/src/lib.rs:431-465 | under the lock, with others creating in between, head, compare and overwrite are one atomic compare-and-swap |
| `ObjStore.LocalStore.DeleteExactObject` | crates/rhiza-obj-store/src/lib.rs:401-425 | likewise head, compare and delete are one atomic conditional delete |
| `ObjStore.RefinesAtomic` | crates/rhiza-obj-store/src/lib.rs:401-473 | every interleaving of creates, updates and exact deletes, cancellations included, is explained by atomic operations: each call that is over took effect exactly once, within the call and with the outcome told, refused creates included; except a create that found its key gone, and then a delete of the key took effect during the call |
| `ObjStore.RefusalIsAtomicExactly` | crates/rhiza-obj-store/src/lib.rs:311-323 | a create's refusal is what the atomic create would answer if and only if the key is still there when it looks again, and it is if no exact delete of the key took effect since the call began |
| `ObjStore.CreatedMeansHeld` | crates/rhiza-obj-store/src/lib.rs:311-323 | create returns Ok only if at that moment the key held exactly those bytes at the returned version |
| `ObjStore.CreateMayRefuseItsOwnBytes` | crates/rhiza-obj-store/src/lib.rs:315-320 | a run in which create is refused although the key only ever held those bytes or nothing |
| `ObjStore.PlainPutBreaksUpdate` | crates/rhiza-obj-store/src/lib.rs:305-309 | an unconditional put between check and overwrite leaves the update atomic exactly when it goes to another key |
| `Client.JsonRequest` | crates/rhiza-client/src/lib.rs:231-282 | endpoints are contacted in order and at most once; without hedging at most one attempt is in flight; none in flight only when all were tried; never the missing-endpoint fallback; at most 2n rounds; a response or final error is the latest ended attempt's and all before it failed retryably; at the deadline or when all have failed, the error is the latest ended attempt's, and none only if none has ended |
| `Profile.SortedIsUnique` | bench/src/bin/rhiza-profile.rs:557-571 | sorted samples are determined by their multiset, so a histogram stands for one sequence |
| `Profile.RankIsExact` | bench/src/bin/rhiza-profile.rs:561-565 | the saturating rank is the exact rank precisely up to a stated product |
| `Profile.NearestRankMeaning` | bench/src/bin/rhiza-profile.rs:557-571 | the percentile is the first sample that the requested share of samples does not exceed |
| `Profile.Samples.Record` | bench/src/bin/rhiza-profile.rs:471-480 | recording adds exactly one sample or one error |
| `Profile.Samples.Merge` | bench/src/bin/rhiza-profile.rs:525-530 | merging adds the two multisets of samples |
| `Profile.Samples.Percentile` | bench/src/bin/rhiza-profile.rs:557-571 | the bucket where the running count reaches the rank is the nearest-rank element |
| `Profile.MergedPercentile` | bench/src/bin/rhiza-profile.rs:525-571 | for any split over workers, merge-then-percentile is the nearest-rank element of the sorted concatenation |
| `Profile.VisitPadding` | bench/src/bin/rhiza-profile.rs:2813-2832 | the padding loop emits numbered chunks that add up to the padding |
| `Profile.VisitSeedCommands` | bench/src/bin/rhiza-profile.rs:2793-2838 | exactly the closed-form number of commands, in order, or only the schema on overflow |
| `Profile.ValidatePaddingRows` | bench/src/bin/rhiza-profile.rs:2920-2954 | the row validator accepts exactly the rows the seed inserts |
| `Transport.PartitionIsBijection` | bench/src/bin/rhiza-transport.rs:2285-2291 | (worker, local) and the global number determine each other, and a worker's share is exactly its numbers below the total |
| `Transport.DecodeExactly` | bench/src/bin/rhiza-transport.rs:1963-1980 | a stream yields a payload if and only if it begins with that payload framed |
| `Transport.DecodeAllExactly` | bench/src/bin/rhiza-transport.rs:2250-2258 | a stream reads back cleanly as a list exactly when it is that list framed, plus fewer than four stray bytes |
| `Transport.EncodedDecodes` | bench/src/bin/rhiza-transport.rs:2250-2258 | any payloads within the limit, framed and concatenated, read back as the same list and then the end |
| `Transport.Reader.ReadFrame` | bench/src/bin/rhiza-transport.rs:1963-1980 | the reader consumes one frame, or reports end or error, as the decoding function says |
| `Transport.Reader.ReadAll` | bench/src/bin/rhiza-transport.rs:1607-1610 | reading frame after frame until the stream ends or breaks yields exactly the payloads the stream decodes to, and whether it ended cleanly |

## Left out

- Successor transitions and forks: they need configuration rules of another crate; `successor_transition` is taken to be absent.
- Retry bounds in the state machine: a call may retry any number of times there and may be abandoned at any step; the bounded loops are in `PublishLoop` and `GcControlObject`.
- PublishLoop.SharedStore.PublishSnapshot: promises that the snapshot object was in place during the call, not that it is still there at the swap; that needs the lease hypothesis and is proved in the state machine.
- Lease renewals and registration inside the loops of `PublishLoop`: they can only stop a call; the state machine has them as steps.
- A copier whose reload of the source fails on recheck: the code then returns without withdrawing; here the call is abandoned.
- JSON, SHA-256 and the segment codec: objects are structured values; truncated or foreign bytes are one kind of error.
- Objects with unrecognised or repeated-suffix names in the store: listings in the state machine hold structured keys only; what the recognisers accept is characterised in `Keys`.
- Order of listings and of candidates by key, and completeness of listings: a listing is read page by page at different moments, and a plan's candidates are in the order read.
- Key ranges: `Keys` speaks of indices within u64 and digests within 256 bits; other modules use unbounded numbers with explicit u64 ceilings where the code checks them.
- Keys.RecognisedForOneIdentity: says nothing across clusters; a cluster id is an arbitrary string.
- Legacy `ArchiveManifest` publication, the legacy snapshot and segment paths: thin wrappers with field checks.
- Liveness under interference: that draining ends, that a retry loop ever wins. Executions that nobody interferes with do finish.
- The non-atomic head-then-delete of cloud stores: delegated by the code to writer fencing.
- Error texts and their redaction, error classes of the profiler, byte samples, floating-point statistics, pricing.
- Overflow of the profiler's 64-bit counters: counts are unbounded.
- Client timers and transports: which event comes next is left open, so timing is not modelled; hedging eligibility of a read is a parameter.
- QuePaxa consensus, the SQL, graph and KV materialisers, the node runtime.
