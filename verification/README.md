# Verified model of the Twinet node agent

This project models, in Dafny 4.11, the bookkeeping with which a Twinet node
agent keeps concurrent deployments apart, and proves properties of its whole
runs. It covers:

- **Fenced coordination**: mutation leases with generation-numbered fences, VNI
  reservations tied to a lease, the collection fence, deployment generations
  and the prepare / apply / commit / finalize-or-recover transaction, each in
  memory and in a journal whose writes can fail and which a restart reads back.
- **Solve transitions**: what must have been preserved before the reference
  solution is written, and what a prune may then remove.
- **Disposable labs**: the lifetime records and their eight-hour ceiling.
- **Operation leases** with preemption, over interleaved clients.
- **The event ring**, its follower over a lossy channel, and text redaction.
- **Deterministic VNI allocation** and deconfliction.
- **Replica placement and acknowledgement**, and **bounded semantic repair**.

## How it is built

Each stateful component has two layers. A *machine* gives the state as a value,
a step function per operation, events and runs; theorems are about every run of
that machine. A *class* holds the fields the agent holds and has one method per
operation, written with the agent's own loops, undo code and save points; each
method is proved to make the step of its machine (`Abs()` is the state the
fields stand for). The methods on transaction records are proved to make the
record part of their step, on memory and journal; which request may make it, and
how that request moves on, is bookkeeping of the machine alone
(`RequestSteps.Reachable`, `RequestSteps.AfterRecord`). Loops over Go maps take
the keys in any order. Whether a save succeeds, what the kernel and peers answer
and how the clock moves are parameters, so theorems hold for every combination
of failures. Beside the step it makes, a method's contract says on the fields
themselves when it succeeds and what it leaves.

| files | component |
|---|---|
| `CoordinationState`, `TableSteps`, `RecordSteps`, `RequestSteps`, `CoordinationRun` | the coordination machine |
| `Fencing`, `OverlayClaims`, `ClaimGuarantees`, `Admission`, `LiveClaims`, `Operations`, `Transactions`, `Agreement`, `TransactionRuns`, `RequestOrigins`, `GenerationRuns`, `Inventories`, `Lineage`, `SolveTransition` | theorems about its runs |
| `Deployments`, `OutOfOrder`, `OrderWitnesses`, `SolveWitnesses` | runs that break what does not hold |
| `CoordinationServer`, `ServerHelpers` | the coordination methods |
| `EphemeralSteps`, `EphemeralCeiling`, `EphemeralServer` | disposable labs |
| `OperationLeases`, `OperationClients` | operation leases |
| `EventRing`, `EventFollower`, `Redaction`, `SecretStretches` | events |
| `StringOrder`, `VniAllocation`, `Deconfliction`, `InterfaceNames` | identifiers |
| `Sorting`, `Replication`, `ReplicaQuorum` | durable replicas |
| `DriftRepair`, `SemanticRepair`, `BoundedRepair` | repair |
| `Common` | shared helpers |

Requests that take several locked sections are several steps, and anything can
come between them:

- prepare reads the topology file, opens the transaction, reads it back, and
  writes the preservation record it made of that reading;
- apply takes the operation lease, reads its transaction and refuses it, and
  marks it as being applied later;
- commit reads its transaction, takes the lease, writes the topology file and
  records the commit;
- recovery reads and tests its transaction, takes the lease and reads it again,
  restores or rewrites the topology file and records the result; forward
  recovery also re-fences the transaction on the way;
- destroy takes the lease, removes the topology file and records it.

A step acts on what its request read, not on what is there now. The mode of the
deployment a prepare replaces is that of the topology file it read.

`CoordinationRun.Allowed` asks only two things of callers: fence tokens are not
empty (and a recovery phase has a positive limit), and a collection is ended by
the pass that began it. `Durable` says that every restart of a run could read
the journal; without it fences can be issued twice
(`Fencing.UnreadableJournalReissues`), and what rests on fresh fences goes with
them.

## What turned out not to hold, and exactly when it does

- Fence generations stay fresh over a restart exactly when the journal can be
  read or no fence was ever issued (`Fencing.RestartKeepsFreshness`); otherwise
  a generation is handed out twice (`Fencing.UnreadableJournalReissues`).
- A rollback writes the claims of the previous topology back without looking at
  collections or owners. It respects both exactly when its VNIs are free of both
  (`ClaimGuarantees.RestoreIsSafeExactlyWhen`). Otherwise the end of a collection
  deletes the claim just restored, in memory and in the journal
  (`OrderWitnesses.RollbackLosesCollectedClaim`, a run in which a deployment over
  a committed one is rolled back). A rollback to VNIs whose live claims the lab
  never gave up is safe however late it comes
  (`LiveClaims.RollbackToKeptClaimsIsSafe`).
- Memory, journal and topology file agree on a lab in every state its requests
  reach *in order* (`Agreement.RunKeepsLab`): no step acts on a reading that is
  out of date (`Agreement.InOrder`). The commit and recovery requests test their
  transaction before they have the operation lease and not after, prepare reads
  the topology file before the lock, and a reclamation records the destroy even
  if the file could not be removed, so a step can be out of order. That condition
  is exact: from every state that agrees, every step that is not in order begins
  a run of events to a state that does not (`OutOfOrder.LateStepSplits`). Runs
  from the initial state: two commit requests of one transaction, of which the
  second finds its own generation and, unsaved, uncommits it in memory only
  (`OrderWitnesses.SecondCommitFindsItself`,
  `OrderWitnesses.FailedSecondCommitSplits`); a commit request overtaken by a
  whole deployment, which a restart then undoes
  (`OrderWitnesses.OvertakenCommitChangesGeneration`); a rollback of a transaction
  committed since its test (`OrderWitnesses.FailedLateRollbackSplits`).
- In any run without a restart in between, a transaction commits over the
  generation its prepare compared against, unless it was committed before; in
  order, always (`GenerationRuns.CommitFindsItsBase`). A finalized transaction was
  committed under the same uninterrupted fence, unless forward recovery took it
  over committed; in order, always (`TransactionRuns.FinalizedAfterCommit`).
- A pruning solve has its preservation record when it is marked as being applied,
  if the request checked an uncommitted transaction or the lab was at the
  reference when it checked: the topology file, and every copy of it a prepare
  has read, is of mode solve (`RequestSteps.SafeToApply`,
  `SolveTransition.PreservedBeforeApply`). Otherwise it can be lost: whenever the
  checked transaction is committed and a prepare has read another file, the same
  fence can finalize it, prepare the same generation anew with a prune and let
  the running request mark it with no record
  (`SolveTransition.UnsureCheckCanBreak`, with `SolveTransition.NotAtReference`
  for such a read; a run over a committed platform deployment in
  `SolveWitnesses.CommittedCheckMarksUnpreserved`).
- A preservation record fits the transaction it is written into unless that
  transaction was closed and prepared anew after the request read it
  (`SolveTransition.RunKeepsSolve`); such a record is refused at the prune
  (`SolveWitnesses.StaleRecordIsRefused`).
- Forward recovery moves a transaction to its own fence without moving the
  preservation record, so the prune it commits is refused unless the record is
  of that fence (`SolveTransition.RefenceLosesEntitlement`, run in
  `SolveWitnesses.ForwardRecoveryCannotPrune`).
- Redaction does not remove every secret after a prefix. An occurrence is taken
  unless it begins inside the secret of one taken before it; the result is the
  text with one mark for every run of characters that taken occurrences and their
  secrets cover (`SecretStretches.RedactIsRendered`). All of an occurrence and its
  secret goes exactly when it is taken or its prefix holds no delimiter
  (`SecretStretches.StretchGoesExactlyWhen`); so of `Bearer bearer x` the `x`
  stays (`SecretStretches.HiddenSecretStays`).
- A redeploy of a disposable lab keeps its ceiling exactly when its creation is
  known, and a restart exactly when its record can be read back
  (`EphemeralCeiling.RedeployKeepsCeilingExactlyWhen`,
  `EphemeralCeiling.RestartKeepsCeilingExactlyWhen`; runs in
  `EphemeralCeiling.RedeployMovesOldCeiling` and
  `EphemeralCeiling.UnsavedRestoreMovesCeiling`).
- The lab of a repair key can be read back exactly when its name has no `|`
  (`SemanticRepair.KeyLabExactlyWhen`).

## Model

| member | source | states |
|---|---|---|
| `Fencing.RunKeepsFenceInv` | internal/agent/coordination.go:491-524 | in every reachable state of a durable run (every restart could read the journal) each lease is covered by the journalled high-water mark and memory is never behind the journal |
| `Fencing.IssuedGenerationsIncrease` | internal/agent/coordination.go:608-648 | over any durable run, failed saves, destroys and restarts included, the generations handed out for a lab strictly increase |
| `Fencing.StaleFenceStaysStale` | internal/agent/coordination.go:508-524 | a fence that was accepted once and refused later is refused for the rest of a durable run |
| `Fencing.RestartKeepsFreshness` | internal/agent/coordination.go:334-358 | after a restart the next generation is above every journalled one if and only if the journal was readable or nothing was issued |
| `Fencing.UnreadableJournalReissues` | internal/agent/coordination.go:334-358 | a concrete run in which an unreadable journal makes a lab get generation 1 twice |
| `OverlayClaims.RunKeepsClaims` | internal/agent/coordination.go:819-1040 | in every reachable state claims, in memory and in the journal, are of fences the journal knows, and in memory a pending reservation of the current lease has its deadline |
| `OverlayClaims.RunKeepsExcluded` | internal/agent/gc_fence.go:67-120 | a VNI is never both claimed and being collected, over any run and unreadable journals included, until a rollback names it |
| `ClaimGuarantees.HeldWhileAccepted` | internal/agent/coordination.go:650-704 | a VNI held by a fence and not being collected stays so while the fence is accepted, unless its own lab gave it up or rolled back, or another lab rolled back to it |
| `ClaimGuarantees.ReservationsLastAsLongAsTheirFence` | internal/agent/coordination.go:544-572 | while the fence is accepted the reservation check passes, pending claims have the lease's deadline, and promotion makes every VNI live |
| `ClaimGuarantees.ReleasedLeavesNothing` | internal/agent/coordination.go:679-704 | after a fence is released no reservation of it is pending, over any run until the process ends |
| `ClaimGuarantees.NoClaimDuringCollection` | internal/agent/gc_fence.go:67-88 | from the begin of a collection to its end no claim of the VNI exists, over every interleaving in which no rollback names it |
| `ClaimGuarantees.ReservationRefused` | internal/agent/coordination.go:845-853 | a request naming a VNI under collection is refused, stamps nothing and adds no claim |
| `ClaimGuarantees.EndCollectionTouchesNoClaim` | internal/agent/gc_fence.go:90-114 | ending such a collection only lifts the fence; no claim changes in memory or journal |
| `ClaimGuarantees.RestoreIsSafeExactlyWhen` | internal/agent/apply_transaction.go:990-1008 | restoring claims keeps the exclusion if and only if no VNI is being collected, and keeps other labs' claims if and only if none is theirs |
| `OrderWitnesses.RollbackLosesCollectedClaim` | internal/agent/apply_transaction.go:983-1008 | a run from the initial state in which a deployment over a committed one is rolled back, writes the claims of the previous topology while a VNI of it is being collected, and the end of that collection deletes the claim in memory and journal |
| `ClaimGuarantees.StampedAliasesAreClaimed` | internal/agent/coordination.go:908-942 | on every exit of a reservation each alias left stamped has a live claim of the lab under the caller's fence |
| `ClaimGuarantees.StampedExactly` | internal/agent/coordination.go:915-928 | which aliases are left stamped: all, or after a failure those stamped before it that could not be reverted |
| `ClaimGuarantees.FailedReservationRestoresClaims` | internal/agent/coordination.go:944-986 | after a refused, unsaved or unadopted request every VNI not left stamped has the claim expiry left it |
| `ClaimGuarantees.AdoptedReservationHolds` | internal/agent/coordination.go:879-942 | otherwise every VNI of the request is held by the fence, others are untouched, and success means the adoption was saved |
| `Admission.GrantedExactlyWhen` | internal/agent/coordination.go:819-942 | a reservation is granted if and only if the caller holds the unexpired lease, no VNI is zero, under collection, another lab's overlay, an unproven ownerless one, or claimed by another lab or an older fence, ownerless overlays can be stamped, and the saves needed succeed |
| `Admission.GrantedClaims` | internal/agent/coordination.go:884-942 | then exactly the ownerless overlays are stamped and live, live claims stay live, the rest is pending with the lease's deadline, all under the fence, nothing else changes, and it is journalled if it changed anything |
| `Admission.CollectedExactlyWhen` | internal/agent/gc_fence.go:67-88 | a collection begins if and only if the VNI has no claim and its owner is unknown or has no transaction, prepared generation, topology, request, unexpired lease, current claim or hold |
| `Admission.CollectionFindsUnused` | internal/agent/gc_fence.go:28-88 | over every run a VNI comes under collection only at a step that finds it so |
| `LiveClaims.LiveClaimLasts` | internal/agent/coordination.go:491-506 | a journalled live claim lasts over any durable run until its lab releases or destroys it, a scan finds the lab unprotected, or another lab rolls back to it |
| `LiveClaims.AdoptedStaysClaimed` | internal/agent/coordination.go:908-942 | an alias stamped by a granted reservation keeps a live claim of the lab, in memory and in the journal, until then |
| `LiveClaims.RollbackToKeptClaimsIsSafe` | internal/agent/apply_transaction.go:983-1008 | a rollback to VNIs the lab kept live takes nothing from a collection or another lab |
| `Transactions.RunKeepsTx` | internal/agent/coordination.go:1160-1222 | in every reachable state memory and journal have the same open transaction of a lab (generation, previous generation and plan, applied if the journal says so), of fences that were issued; a prepared generation names it, and a committed one was applied |
| `Agreement.RunKeepsLab` | internal/agent/coordination.go:1498-1556 | in every state a durable run reaches in order, memory, journal and topology file agree: the committed generation is the transaction's own, or while it is uncommitted its previous one; flags agree; the file is of such a generation, and so is what the request with the lease will write |
| `Operations.TopologyHasOneWriter` | internal/agent/apply_transaction.go:327-338 | whatever the step, the topology file of a lab changes only by the request that holds its operation lease: removed by a destroy, put back as its prepare read it by a rollback, otherwise of the generation, overlays and mode of its transaction |
| `Operations.WrittenIsStored` | internal/agent/apply_transaction.go:372-401 | over every run a request that has written the file finds it so until it ends |
| `Operations.ClaimsAreRestoredByRollback` | internal/agent/apply_transaction.go:983-1008 | claims of a previous topology are written only by the rollback that holds the lease, for the VNIs of the file it replaced |
| `OutOfOrder.LateStepSplits` | internal/agent/apply_transaction.go:303-338 | from every state that agrees, every step that is not in order begins a run of events to a state in which memory, journal and topology file do not agree |
| `OutOfOrder.StaleCommitOverwrites` | internal/agent/apply_transaction.go:398-401 | a commit request whose generation no longer fits writes it into the topology file |
| `OutOfOrder.SecondCommitSplits` | internal/agent/coordination.go:1498-1556 | a commit request whose transaction was committed since its read commits it again, over its own generation; unsaved, memory and journal differ in the flag |
| `OutOfOrder.LateRollbackSplits` | internal/agent/recovery.go:2306-2346 | a rollback of a transaction committed since its test takes the committed generation back; unsaved, the transaction stays committed |
| `OutOfOrder.LateForwardSplits` | internal/agent/recovery.go:2683-2695 | forward recovery of such a transaction commits it again, with the same split |
| `OutOfOrder.StalePrepareRestores` | internal/agent/coordination.go:1137-1143 | a prepare that read the topology file before another deployment replaced it restores the old file when it is rolled back |
| `OutOfOrder.LeftoverFileReturns` | internal/agent/ephemeral.go:431-445 | a reclamation that could not remove the topology file records the lab as destroyed, and a restart brings its generation back |
| `OrderWitnesses.SecondCommitFindsItself` | internal/agent/apply_transaction.go:303-338 | a run in which two commit requests of one transaction both commit under one fence, and the second finds the generation of the first |
| `OrderWitnesses.FailedSecondCommitSplits` | internal/agent/coordination.go:1536-1556 | a run in which the second commit is not saved: uncommitted in memory, committed in the journal |
| `OrderWitnesses.OvertakenCommitChangesGeneration` | internal/agent/apply_transaction.go:398-401 | a run in which an overtaken commit request writes its topology file with no transaction open, and a restart goes back to its generation |
| `OrderWitnesses.FailedLateRollbackSplits` | internal/agent/recovery.go:2306-2346 | a run in which a rollback starts after the commit and is not saved: the transaction is committed, its generation is not |
| `Transactions.SaveIsReadBack` | internal/agent/coordination.go:469-487 | what a successful save wrote is what a restart reads: transactions, inventories, lineage, marks and live claims; after a failed save a restart reads what it would have read before |
| `Transactions.RestartReads` | internal/agent/coordination.go:334-415 | a new process holds no lease, collection or request; records, unlapsed claims and marks are those of the journal if it can be read, and the topology file decides the committed generation |
| `Transactions.DestroyForgets` | internal/agent/coordination.go:1042-1088 | a saved destroy leaves nothing of the lab, in memory, journal and after a restart, but its high-water mark, and touches no other lab |
| `TransactionRuns.CommittedUnderOneFence` | internal/agent/coordination.go:1498-1510 | a commit happens under the fence that prepared (or re-fenced) the transaction, accepted without interruption since, after a mark of applied made under it |
| `TransactionRuns.FinalizedAfterCommit` | internal/agent/coordination.go:1576-1594 | in every durable run a finalized transaction was committed under the fence that prepared or re-fenced it, accepted without interruption since, or forward recovery had taken it over committed already; in order, only the former |
| `TransactionRuns.LapseOrphans` | internal/agent/coordination.go:508-524 | a transaction whose fence stopped being accepted has a fence that can never be accepted again |
| `TransactionRuns.RestartOrphans` | internal/agent/coordination.go:334-415 | every transaction read back by a restart is under a fence that can never be accepted again |
| `TransactionRuns.OrphanIsStuck` | internal/agent/coordination.go:1600-1640 | such a transaction is never applied, committed or finalized and stays as it is while it is open, whatever is attempted on it, unless forward recovery re-fences it |
| `TransactionRuns.OrphanLeavesByClose` | internal/agent/coordination.go:1600-1640 | it disappears only by a recovery or destroy that an accepted fence saved, or by reconciliation of an inventory it had already committed |
| `RequestOrigins.CommitWasCommittable` | internal/agent/coordination.go:1433-1458 | every commit by a commit request is of a transaction it read before under the same accepted fence, applied and with no recovery asked for |
| `RequestOrigins.NoCommitReadInRecovery` | internal/agent/coordination.go:1441-1446 | once a transaction is marked for recovery no commit request reads it, over restarts too, until an apply mark, a commit under way or a re-fence resumes it or it closes |
| `RequestOrigins.RecoveryWasTested` | internal/agent/recovery.go:2265-2326 | a request that rolls back or forwards a transaction found it uncommitted before, under the same accepted fence |
| `RequestOrigins.CommitHasItsFile` | internal/agent/apply_transaction.go:398-401 | over every run a commit finds the topology file of its generation on disk |
| `RequestOrigins.RecoveryHasItsFile` | internal/agent/recovery.go:2476-2509 | over every run a recovery finds the topology file its transaction replaced |
| `RequestOrigins.DestroyHasNoFile` | internal/agent/agent.go:2362-2382 | a destroy is recorded only when the topology file is gone, except by a reclamation |
| `Inventories.RecoveryRestoresInventory` | internal/agent/coordination.go:1600-1640 | over every durable run a recovery that closes a transaction leaves, in memory and journal, the inventory and generation its prepare found, also after a commit and a reopening |
| `Inventories.InventoryChangesOnlyBy` | internal/agent/coordination.go:1517-1535 | over every run the inventory of a lab changes only by its own saved commit, recovery, reconciliation of the same generation or destroy, or by a restart |
| `GenerationRuns.CommitFindsExpected` | internal/agent/coordination.go:1160-1222 | in order, a commit by the fence that prepared finds exactly the generation its prepare compared against, and sets its own |
| `GenerationRuns.CommitFindsItsBase` | internal/agent/recovery.go:2683-2695 | in every durable run, whichever fence commits it, without a restart since its prepare a transaction commits over exactly the generation that prepare compared against or was committed before; in order, always the former, and after a restart that or its own |
| `GenerationRuns.CommitWasPrepared` | internal/agent/coordination.go:1498-1510 | every commit is of a transaction one prepare opened and that stayed open since |
| `GenerationRuns.ReachedBy` | internal/agent/coordination.go:1511-1516 | in every durable run a committed generation becomes another one only at a step that sets it so: a commit to it, a recovery or reopened commit of a transaction that replaced it, a destroy, or a restart that reads it from the topology file or the journal |
| `GenerationRuns.OneCommitPerBase` | internal/agent/coordination.go:1160-1170 | in every durable run two deployments prepared against the same generation both commit, by whichever fences, only if in between such a step set the committed generation back to it |
| `GenerationRuns.RestartKeepsCommitted` | internal/agent/agent.go:565-577 | in order, a restart that finds no open transaction of a lab keeps its committed generation, although it takes that of the topology file |
| `Lineage.RunKeepsLineage` | internal/agent/coordination.go:1511-1535 | in every reachable state each overlay's recorded generation is an ancestor, ancestors are distinct and non-empty, and the journal agrees with memory |
| `Lineage.AncestorsAreKept` | internal/agent/coordination.go:1558-1571 | between destroys the ancestor list only grows at its end |
| `Lineage.AppendExtends` | internal/agent/coordination.go:1558-1571 | appending a lineage keeps the list as a prefix, adds exactly the new non-empty generations and keeps it duplicate-free |
| `Lineage.CommitMovesTouched` | internal/agent/coordination.go:1517-1554 | a saved commit gives touched overlays the new generation and keeps the others' value; a failed save keeps ancestors, lineage and inventory |
| `Lineage.TouchedIsKept` | internal/agent/coordination.go:1419-1431 | an overlay recorded as touched stays so while the transaction is open and the process lives |
| `SolveTransition.RunKeepsSolve` | internal/agent/coordination.go:1317-1341 | in every reachable state a preservation record fits its transaction unless a stale one was written, and its fence unless forward recovery re-fenced |
| `SolveTransition.RunKeepsReads` | internal/agent/apply_transaction.go:243-270 | what a prepare request read is the open transaction, unless that was opened after the read |
| `SolveTransition.RunKeepsSections` | internal/agent/agent.go:1737-1836 | while an apply request runs that was sure at its check, no transaction of the lab lacks a preservation record it needs, and the lab stays uncommitted or at the reference |
| `SolveTransition.PreservedBeforeApply` | internal/agent/agent.go:1786-1836 | a pruning transition to solve, whose request checked an uncommitted transaction or a lab at the reference, enters the apply phase with a record; of the same lab, generation, mode and request unless stale, and of the same fence unless re-fenced |
| `SolveTransition.UnsureCheckCanBreak` | internal/agent/agent.go:1756-1836 | from every state in which the running request's transaction is committed and a prepare has read a topology file other than the reference, three steps lead to an apply phase without a record |
| `SolveTransition.NotAtReference` | internal/agent/coordination.go:1176-1200 | when the lab is not at the reference, some prepare has read such a file or reads it in one step |
| `SolveWitnesses.CommittedCheckMarksUnpreserved` | internal/agent/agent.go:1756-1836 | such a run from the initial state, over a committed platform deployment |
| `SolveWitnesses.StaleRecordIsRefused` | internal/agent/apply_transaction.go:243-270 | a run in which a record made for an earlier transaction is written into its successor; the prune is refused |
| `SolveWitnesses.ForwardRecoveryCannotPrune` | internal/agent/recovery.go:2683-2695 | a run in which a preserved transition, taken over by forward recovery, is refused its prune |
| `SolveTransition.PruneGrantedExactlyWhen` | internal/agent/solve_transition.go:250-296 | in every reachable state a granted prune covers exactly the preserved set of a fitting record of this node, manifest and attempt, every such record is granted unless stale, and the other refusals are met only after a stale record or a re-fence |
| `SolveTransition.AppliedTransitionCanPrune` | internal/agent/apply_transaction.go:495-510 | once such a transition is being applied, with none of the above in its past, its prune is refused only for another node or manifest |
| `SolveTransition.RefenceLosesEntitlement` | internal/agent/recovery.go:2683-2695 | forward recovery keeps the record, so a prune is granted only if the record is of the new fence; without a record it applies all the same |
| `CoordinationState.LeaseTTL` | internal/agent/coordination.go:316-324 | a lease lasts as long as asked between one second and ten minutes, ten minutes beyond that, and ninety seconds when nothing is asked |
| `CoordinationServer.Server.ExpireCoordination` | internal/agent/coordination.go:491-506 | drops exactly the leases and pending reservations whose deadline passed, and reports whether there were any |
| `CoordinationServer.Server.RequireMutationFence` | internal/agent/coordination.go:526-537 | accepts exactly the fence of an unexpired lease, unless saving the expiry failed |
| `CoordinationServer.Server.RequireOverlayReservations` | internal/agent/coordination.go:544-572 | passes exactly when every VNI is held by the fence and not lapsed |
| `CoordinationServer.Server.IssueFence` | internal/agent/coordination.go:631-647 | takes the next generation; the lease exists only if that was saved, the mark stays raised either way |
| `CoordinationServer.Server.AcquireMutationLease` | internal/agent/coordination.go:608-648 | makes the acquire step; succeeds exactly for a named, unleased lab whose mark was saved, and the returned fence is accepted |
| `CoordinationServer.Server.AcquireRecoveryFence` | internal/agent/recovery.go:462-489 | makes the recovery-fence step and says exactly when a fence is returned |
| `CoordinationServer.Server.RenewMutationLease` | internal/agent/coordination.go:650-677 | makes the renew step, lease and pending reservations together; succeeds exactly for an accepted fence whose change was saved |
| `CoordinationServer.Server.ReleaseMutationLease` | internal/agent/coordination.go:679-704 | makes the release step; lease and pending reservations of the fence are gone, live ones and those of others stay, and the fence is not accepted afterwards in any case |
| `CoordinationServer.Server.CheckAdmission` | internal/agent/coordination.go:842-877 | admits a request exactly when no VNI is under collection, another lab's or an unproven ownerless overlay, or claimed by another lab or an older fence, and lists its ownerless overlays |
| `CoordinationServer.Server.WriteReservations` | internal/agent/coordination.go:884-900 | writes the reservations of a request and reports exactly whether something changed |
| `CoordinationServer.Server.RestoreSnapshot` | internal/agent/coordination.go:944-952 | puts back exactly the snapshotted claims that are not kept |
| `CoordinationServer.Server.AdoptLegacyOwners` | internal/agent/coordination.go:911-930 | stamps ownerless overlays up to the first refusal and makes their claims live |
| `CoordinationServer.Server.RollbackLegacyAdoptions` | internal/agent/coordination.go:954-986 | reverts adopted aliases, keeps the claims of those that stay, restores the rest |
| `CoordinationServer.Server.ReserveOverlays` | internal/agent/coordination.go:819-942 | makes the reservation step: state, stamped aliases and answer on every exit; a grant means that every VNI was available and is held by the fence, the ownerless ones stamped |
| `CoordinationServer.Server.PromoteOverlayReservations` | internal/agent/coordination.go:988-1015 | makes the promotion step; succeeds exactly when the fence holds every VNI and the change was saved |
| `CoordinationServer.Server.ReleaseOverlayClaims` | internal/agent/coordination.go:1017-1037 | drops exactly the lab's claims of the given VNIs, or all of them when none is given |
| `CoordinationServer.Server.RestoreOverlayClaims` | internal/agent/apply_transaction.go:990-1008 | makes the rollback step on claims |
| `CoordinationServer.Server.LabProtected` | internal/agent/gc_fence.go:28-59 | a lab is protected exactly by an open or prepared deployment, a live lease, an unlapsed claim or the other records |
| `CoordinationServer.Server.BeginOverlayCollection` | internal/agent/gc_fence.go:67-88 | makes the begin step; marks the VNI exactly when it is neither marked nor claimed and its owner is unknown or has no lease, records or claim of its own |
| `CoordinationServer.Server.EndOverlayCollection` | internal/agent/gc_fence.go:99-114 | makes the end step |
| `CoordinationServer.Server.ReleaseStaleLiveClaims` | internal/agent/gc.go:388-406 | drops exactly the eligible live claims of unprotected labs |
| `CoordinationServer.Server.ReadStored` | internal/agent/coordination.go:1137-1143 | makes the step in which a prepare request reads the topology file |
| `CoordinationServer.Server.PrepareGeneration` | internal/agent/coordination.go:1152-1232 | makes the prepare step on the records; a successful answer means the fence owns the open transaction |
| `CoordinationServer.Server.ReadPrepared` | internal/agent/apply_transaction.go:243-245 | makes the step in which a prepare request reads its transaction back |
| `CoordinationServer.Server.BeginApply` | internal/agent/agent.go:1737-1790 | makes the checking step of an apply request; it goes on exactly when the lab is free and the fence owns a transaction that is not refused |
| `CoordinationServer.Server.UpdateTransaction` | internal/agent/coordination.go:1271-1403 | makes the applying, applied, solve-record and touched steps; succeeds exactly for the owning fence and a successful save, changes only what the update names and keeps earlier touched VNIs |
| `CoordinationServer.Server.MarkTransactionPhase` | internal/agent/recovery.go:1651-1684 | makes the phase step of any accepted fence |
| `CoordinationServer.Server.TransactionForCommit` | internal/agent/coordination.go:1433-1458 | makes the step in which a commit request reads its transaction; it is returned exactly when the accepted fence owns it, it is applied, and its phase is none of rollback needed, recovering and rollback failed |
| `CoordinationServer.Server.BeginCommit` | internal/agent/apply_transaction.go:327-338 | makes the step that takes the lease; it goes on exactly when the lease was free and what was read is uncommitted |
| `CoordinationServer.Server.PutCommittedTopology` | internal/agent/apply_transaction.go:372-401 | makes the step that writes the topology file, of the mode of the transaction or, for a scoped one, of the previous mode |
| `CoordinationServer.Server.FinishCommittedGeneration` | internal/agent/coordination.go:1498-1556 | makes the commit step on the records, with the restore of a failed save; succeeds exactly for the owning fence of an applied transaction |
| `CoordinationServer.Server.FinalizeCommittedGeneration` | internal/agent/coordination.go:1576-1594 | makes the finalize step with its undo; succeeds exactly for the owning fence of a committed transaction and a successful save |
| `CoordinationServer.Server.FinishRecoveredGeneration` | internal/agent/coordination.go:1600-1640 | makes the recovery step: the transaction goes, previous generation and pre-state inventory are back and journalled; after a failed save the transaction stays |
| `CoordinationServer.Server.ReopenCommittedTransaction` | internal/agent/recovery.go:540-589 | makes the reopen step; the answer is positive exactly when the transaction is open and uncommitted afterwards |
| `CoordinationServer.Server.BeginRecovery` | internal/agent/recovery.go:591-650 | makes the step that marks the transaction as recovering and reads it again; it is returned exactly when it is still open, the fence accepted and the mark saved |
| `CoordinationServer.Server.RestoreTopology` | internal/agent/recovery.go:2476-2509 | makes the step in which a rollback puts back, or removes, the topology file its prepare read |
| `CoordinationServer.Server.RefenceTransaction` | internal/agent/recovery.go:2683-2695 | makes the forward re-fence step on the records |
| `CoordinationServer.Server.RefreshCommittedInventory` | internal/agent/recovery.go:1982-2010 | makes the step that replaces a committed inventory and closes its transaction; the answer says exactly whether it was replaced |
| `CoordinationServer.Server.FinishDestroyedLab` | internal/agent/coordination.go:1042-1088 | makes the destroy step: claims, records, inventory and lineage of the lab go but its high-water mark stays, or nothing changes; other labs are untouched |
| `CoordinationServer.Server.LoadHighWater` | internal/agent/coordination.go:354-358 | takes journalled marks over without lowering one |
| `CoordinationServer.Server.RehydrateGenerations` | internal/agent/agent.go:565-577 | the generation in a topology file becomes the committed one |
| `CoordinationServer.Server.Restart` | internal/agent/coordination.go:334-415 | makes the restart step for a readable and for an unreadable journal |
| `ServerHelpers.SortedVNIs` | internal/agent/coordination.go:803-817 | the distinct VNIs in increasing order, or an error exactly when one is zero |
| `ServerHelpers.AppendGenerationLineage` | internal/agent/coordination.go:1558-1571 | the loop computes the first occurrences of the extended list |
| `ServerHelpers.AppendTouchedVNIs` | internal/agent/coordination.go:1419-1431 | the sorted distinct non-zero VNIs of both lists |
| `EphemeralSteps.ClampTTL` | internal/agent/ephemeral.go:124-132 | a grant lasts as long as asked between one second and one hour, one hour beyond that, and fifteen minutes when nothing is asked |
| `EphemeralCeiling.DeadlineNeverPassesCeiling` | internal/agent/ephemeral.go:78-83 | while a lifetime record exists no redeploy, heartbeat, failed save or restart moves its deadline past its creation plus eight hours |
| `EphemeralCeiling.PastCeilingStaysExpired` | internal/agent/ephemeral.go:85-88 | a lifetime past its ceiling stays expired |
| `EphemeralCeiling.HeartbeatsNeverRevive` | internal/agent/ephemeral.go:205-213 | an expired lifetime is unchanged until a redeploy |
| `EphemeralCeiling.AliveAfterHeartbeat` | internal/agent/ephemeral.go:205-235 | after an accepted heartbeat, if nothing else is done to the lab, it is expired exactly from the time asked for or its ceiling on, whichever is first |
| `EphemeralCeiling.SavedEndIsFinal` | internal/agent/ephemeral.go:198-205 | a saved release, durable redeploy or destroy ends the lifetime in memory and journal, an unsaved one changes nothing, other labs keep theirs |
| `EphemeralCeiling.RedeployKeepsCeilingExactlyWhen` | internal/agent/ephemeral.go:150-156 | a redeploy keeps creation and ceiling if and only if the creation is known |
| `EphemeralCeiling.RestartKeepsCeilingExactlyWhen` | internal/agent/ephemeral.go:286-304 | a restart keeps the ceiling if and only if the record can be read back; otherwise a restored lifetime is bounded by one grant |
| `EphemeralCeiling.RedeployMovesOldCeiling` | internal/agent/ephemeral.go:150-156 | a run in which a redeploy moves the ceiling of a record without a creation |
| `EphemeralCeiling.UnsavedRestoreMovesCeiling` | internal/agent/ephemeral.go:286-304 | a run in which a restart moves the ceiling of a lifetime that was never saved |
| `EphemeralCeiling.DroppedReturnsExactlyWhen` | internal/agent/ephemeral.go:506-516 | after a reclamation heartbeats for the lab are refused, and a restart brings its record back if and only if the removal was not saved and can be read, or the topology still marks the lab |
| `EphemeralServer.Server.NoteEphemeralLease` | internal/agent/ephemeral.go:136-167 | makes the deployment step, undone when unsaved |
| `EphemeralServer.Server.RenewEphemeralLease` | internal/agent/ephemeral.go:177-235 | makes the heartbeat or release step; accepted exactly from the owner (of an unexpired lifetime for a heartbeat) when saved; a heartbeat moves the deadline to the time asked for, at most the ceiling |
| `EphemeralServer.Server.ForgetEphemeralLease` | internal/agent/ephemeral.go:520-534 | makes the step of a durable redeploy; the answer says whether the lab is durable |
| `EphemeralServer.Server.ExpiredEphemeralLabs` | internal/agent/ephemeral.go:332-344 | lists exactly the labs whose lifetime passed, each once, in increasing order |
| `EphemeralServer.Server.LoadLifetimes` | internal/agent/coordination.go:393-409 | reads the journalled lifetimes, giving each a ceiling, and reports exactly whether one lacked it |
| `EphemeralServer.Server.RestoreLifetimes` | internal/agent/ephemeral.go:286-304 | gives exactly the disposable topologies without a record a bounded one |
| `EphemeralServer.Server.Restart` | internal/agent/agent.go:578-602 | makes the restart step with both of its saves |
| `OperationLeases.Server.AcquireOperation` | internal/agent/agent.go:641-662 | publishes an operation with a fresh id exactly when the lab is free |
| `OperationLeases.Server.TryForced` | internal/agent/agent.go:693-722 | one pass of the forcing loop: publish, wait for a preemptible operation after cancelling it, or refuse |
| `OperationLeases.Server.TryRecovery` | internal/agent/agent.go:736-775 | one pass of the recovery loop, with takeover of a recovery past its deadline |
| `OperationClients.RunKeeps` | internal/agent/agent.go:632-797 | over every interleaving each entry belongs to the client that published it and still holds it, and its channel is open |
| `OperationClients.MutualExclusion` | internal/agent/agent.go:641-662 | at most one client is between acquire and release of a lab |
| `OperationClients.AcquiredExactlyWhen` | internal/agent/agent.go:641-662 | an idle client holds the lease of a named lab after asking for it exactly when it was free |
| `OperationClients.WaitsOnlyForPreemptible` | internal/agent/agent.go:693-775 | over every interleaving a client cancels and waits only for a reconciliation, an apply, or a recovery past its deadline that it may take over |
| `OperationClients.OnlyOwnReleaseRemoves` | internal/agent/agent.go:788-872 | no step of another client, neither release included, changes a holder's entry |
| `OperationClients.ReleaseRemovesOwnEntry` | internal/agent/agent.go:788-872 | over every interleaving a release, with or without its id, removes exactly the entry its client published |
| `OperationClients.ClosedMeansRemoved` | internal/agent/agent.go:788-797 | a done channel is closed only after its operation left the table |
| `OperationClients.PreemptorWaitsForOwner` | internal/agent/agent.go:712-722 | a client that preempted an operation is published only after the owner of that operation released it |
| `EventRing.Ring.Restore` | internal/agent/events.go:104-116 | keeps the newest events up to capacity and numbers later ones above all of them |
| `EventRing.Ring.Append` | internal/agent/events.go:118-154 | numbers the event, evicts the oldest, offers it to every watcher that wants it and drops it for a full one |
| `EventRing.Ring.After` | internal/agent/events.go:184-203 | the first matching events past the cursor, at most a clamped page, and the cursor after them |
| `EventRing.Ring.Subscribe` | internal/agent/events.go:205-236 | every retained matching event and a fresh watcher registered with it |
| `EventRing.MatchingMembers` | internal/agent/events.go:192-200 | a page source holds exactly the wanted events past the cursor, in order |
| `EventFollower.WrittenInOrder` | internal/agent/events.go:541-581 | a follower writes wanted events in the ring's order, each once |
| `EventFollower.SkippedWasEvicted` | internal/agent/events.go:547-581 | a wanted event the cursor passed without writing it has left the ring, although full channels drop events |
| `EventFollower.WaitsOnlyCaughtUp` | internal/agent/events.go:549-560 | a follower turns to its channel only when every retained wanted event was written |
| `EventFollower.NothingComesBack` | internal/agent/events.go:134-138 | an evicted event never returns to the ring |
| `EventFollower.Follower.constructor` | internal/agent/events.go:530-531 | a follow request starts in an initial state of the machine over its ring |
| `EventFollower.Follower.Recorded` | internal/agent/events.go:118-154 | an append to the ring makes the append step of every follower of it |
| `EventFollower.Follower.WriteNext` | internal/agent/events.go:546-561 | makes the write step |
| `EventFollower.Follower.ReadRing` | internal/agent/events.go:553-561 | makes the step that reads the ring past the cursor |
| `EventFollower.Follower.Receive` | internal/agent/events.go:565-577 | makes the step that takes an event from the lossy channel |
| `Redaction.RedactedIsClean` | internal/agent/events.go:271-304 | the result contains none of the nine prefixes |
| `Redaction.RedactKeepsExactlyClean` | internal/agent/events.go:271-304 | text is unchanged if and only if it contains none of them, and redaction is idempotent |
| `Redaction.ReplacePrefix` | internal/agent/events.go:285-301 | the loop that searches again from the start terminates and equals one pass over the text |
| `Redaction.RedactEventText` | internal/agent/events.go:271-304 | the loop over all prefixes computes the one-pass redaction |
| `SecretStretches.RedactIsRendered` | internal/agent/events.go:271-304 | what that is, without passes: one mark for every run of characters that taken occurrences of the nine prefixes and the secrets after them cover, and every other character as it was |
| `SecretStretches.OnlySecretIsCut` | internal/agent/events.go:285-301 | a text with one occurrence of a prefix becomes the text before it, the mark, and the text from the next delimiter on |
| `SecretStretches.StretchGoesExactlyWhen` | internal/agent/events.go:285-301 | all of an occurrence and its secret goes if and only if the occurrence is taken or its prefix holds no delimiter |
| `SecretStretches.HiddenSecretStays` | internal/agent/events.go:285-301 | a text in which the secret after a second prefix stays |
| `Redaction.EndFromMeans` | internal/agent/events.go:291-298 | a replacement ends at the first delimiter or at the end of the text |
| `StringOrder.SortStrings` | internal/alloc/alloc.go:204-212 | the in-place insertion sort leaves a sorted permutation |
| `StringOrder.SortedIsUnique` | internal/alloc/alloc.go:204-212 | the elements alone determine the sorted sequence |
| `StringOrder.LessExactlyWhen` | internal/alloc/alloc.go:204-212 | the order is that of byte strings: a proper prefix, or smaller where they first differ |
| `VniAllocation.Vni` | internal/alloc/alloc.go:35-48 | every candidate lies between 4096 and 16000000, inside the 24-bit space of section 5 of RFC 7348 |
| `VniAllocation.AssignVNIs` | internal/alloc/alloc.go:113-129 | injective, defined exactly on the links, in range, and the same for every order of the links |
| `VniAllocation.FirstCandidateIsAssigned` | internal/alloc/alloc.go:113-129 | a link has the first of its candidates that no link sorted before it has |
| `Deconfliction.DeconflictIsSafeAndMinimal` | internal/alloc/alloc.go:64-108 | from an injective assignment: injective; exactly the links whose identifier another lab owns by name move, to identifiers in range that nobody else uses; and their number is returned |
| `Deconfliction.OthersDecide` | internal/alloc/alloc.go:64-72 | only entries not owned by the lab influence the result |
| `Deconfliction.RedeployIsStable` | internal/alloc/alloc.go:88-105 | with its own result recorded as in use, a redeploy assigns the same identifiers |
| `Deconfliction.Deconflict` | internal/alloc/alloc.go:64-108 | the loops compute that assignment for every order of the maps they read |
| `InterfaceNames.NamesFitAndIdentify` | internal/alloc/alloc.go:172-177 | bridge and tunnel names fit 15 bytes, no two interfaces share one |
| `Replication.ReplicaTargets` | internal/agent/durability.go:601-641 | peers in pairwise distinct domains other than the local one, in name order; it fails exactly when the node is not placed or too few such domains exist |
| `Replication.PicksCoverDomains` | internal/agent/durability.go:627-637 | the greedy choice finds one peer for every other domain |
| `Replication.AppendAck` | internal/agent/durability.go:1111-1127 | replaces exactly the acknowledgement of one node and keeps the order |
| `ReplicaQuorum.AskPeer` | internal/agent/durability.go:1029-1083 | what a peer confirmed, which is only what its inventory or its import acknowledgements say; nothing exactly when it did not answer, or lacks something and did not import |
| `ReplicaQuorum.CollectAcks` | internal/agent/durability.go:1028-1096 | succeeds exactly when every target confirms every current digest, and then every target itself said so and all acknowledgements are recorded |
| `ReplicaQuorum.Server.ReplicateDurableState` | internal/agent/durability.go:994-1109 | success means the persisted status holds a quorum for every current artifact; the status changes only to one that does; it succeeds when enough domains exist, every peer confirms and the saves succeed |
| `SemanticRepair.RepairDelay` | internal/agent/reconcile.go:1872-1887 | the loop computes the delay of an attempt |
| `SemanticRepair.DelayDoubles` | internal/agent/reconcile.go:1872-1887 | the first delay is one second and each is twice the one before, up to five minutes |
| `SemanticRepair.RepairKeyLab` | internal/agent/semantic_grace.go:55-62 | the loop computes the text before the first separator |
| `SemanticRepair.KeyLabExactlyWhen` | internal/agent/semantic_grace.go:55-62 | the lab of a key is read back if and only if its name has no separator |
| `SemanticRepair.Server.GivingUpOn` | internal/agent/reconcile.go:1751-1759 | reports exactly whether the device is in backoff |
| `SemanticRepair.Server.RepairFailed` | internal/agent/reconcile.go:1761-1774 | makes the step of a failed lifecycle repair |
| `SemanticRepair.Server.DeferSemanticRepair` | internal/agent/reconcile.go:1792-1819 | makes the step of a failed cycle; terminal exactly from the third cycle on, and always in backoff afterwards |
| `SemanticRepair.Server.RepairDevice` | internal/agent/reconcile.go:604-660 | makes the step of one pass over a device: skipped in backoff, repaired within its bounds |
| `SemanticRepair.Server.BeginSemanticConvergenceGrace` | internal/agent/semantic_grace.go:21-41 | clears exactly the counted devices of the lab |
| `BoundedRepair.TerminalUsedItsCycles` | internal/agent/reconcile.go:1814-1819 | in every reachable state a terminal device has at least three recorded cycles |
| `BoundedRepair.GraceClearsLab` | internal/agent/semantic_grace.go:30-39 | a new committed generation leaves no device of its lab terminal or counted |
| `BoundedRepair.GraceKeepsOtherLabs` | internal/agent/semantic_grace.go:32-39 | devices of other labs keep their history |
| `BoundedRepair.AtMostThreeCycles` | internal/agent/reconcile.go:617-641 | between resets a device gets at most three unforced failing cycles |
| `BoundedRepair.TerminalStops` | internal/agent/reconcile.go:617-627 | in every reachable state a device that used up its cycles is terminal with a reason, and no unforced pass repairs it or changes its history |
| `BoundedRepair.PassHolds` | internal/agent/reconcile.go:604-627 | a pass in backoff, over an unclear observation or a terminal device changes nothing, unless forced |
| `BoundedRepair.PassSettles` | internal/agent/reconcile.go:1761-1790 | otherwise a device seen healthy or repaired is cleared and a failed repair is counted and delayed |
| `BoundedRepair.PassRepairsDrift` | internal/agent/reconcile.go:628-660 | drift runs a cycle: success clears the device, failure counts a cycle and puts it into backoff |
| `BoundedRepair.SettledClearsBackoff` | internal/agent/coordination.go:1616-1629 | a finished recovery clears the backoff of the devices of its lab, and nothing else |
| `DriftRepair.FailureIsExplained` | internal/agent/reconcile.go:832-893 | a failed cycle always has a reason that is not empty, so the terminal state it may lead to stops the next one |
| `DriftRepair.CycleSucceedsExactlyWhen` | internal/agent/reconcile.go:832-893 | a cycle for drift succeeds if and only if the drift is the node's to repair, both repair steps succeed, the device is confirmed, and it is healthy then or after a rewiring |
| `DriftRepair.RepairableExactlyWhen` | internal/agent/reconcile.go:955-975 | which drift the node repairs itself |

## Left out

- CoordinationServer.Server.BeginApply: does not model the refusals for another mode, placement or manifest than prepared, which only add refusals before the step.
- CoordinationServer.Server.ReadPrepared: takes the mode of the request as a parameter.
- CoordinationServer.Server.PrepareGeneration: does not check request modes and topology encodings, which only adds refusals; the requested topology, its mode and the pre-state are parameters, the previous mode is that of the topology file read.
- CoordinationServer.Server.ReadStored: does not model a read that fails, nor the topology and mode kept in memory that prepare falls back to when there is no file (coordination.go:1144-1152 and 1191-1200); without a file the previous mode is platform.
- CoordinationServer.Server.TransactionForCommit: does not model the refusal of unverified restored state and of unknown modes.
- CoordinationServer.Server.BeginCommit: takes it as given that the prepared topology can be decoded and belongs to the lab; otherwise the request stops before this step.
- CoordinationServer.Server.BeginRecovery: does not model the refusals for a running recovery without takeover and for forward recovery without acknowledgement, attempt counters and deadlines, nor the pre-state given to transactions of older agents; they only add refusals and data no modelled step reads.
- CoordinationServer.Server.RestoreTopology: takes it as given that the previous topology can be decoded; otherwise the rollback stops before this step.
- CoordinationServer.Server.ReopenCommittedTransaction: does not model the refusals for an unsafe pre-state or a missing previous generation, because pre-state contents are not part of the model.
- CoordinationServer.Server.RefreshCommittedInventory: takes the verified inventory as a parameter; how it is inspected is not modelled.
- CoordinationServer.Server.Restart: does not model the migration of records from agents without explicit modes, nor the topology hash used for a record without a generation.
- CoordinationServer.Server.MarkTransactionPhase: does not model recovery attempt counters, progress times and failure texts.
- DriftRepair.FailureIsExplained: takes it as given that errors of the deploy engine carry a text; the engine is not part of the model.
- SemanticRepair.Server.RepairDevice: takes the observations and the answers of the deploy engine as parameters and does not model the suppression of repairs during recovery.
- EventFollower.Follower.Receive: does not model the closing of the channel when the request ends.
- CoordinationServer.Server.FinishDestroyedLab: does not model the in-memory topology, mode and peer maps it also clears.
- EventRing.Ring.Append: does not model timestamps, the bounding of event fields and the durable event journal.
- EphemeralServer.Server.RestoreLifetimes: assumes the topology files that mark a lab as disposable as a parameter.
- Replication.ReplicaTargets: assumes of the placement only its node list; reading the policy is not modelled.
- VniAllocation.AssignVNIs: requires a free salt for every link, because the probe loop of the source does not end without one.
- Deconfliction.Deconflict: requires a free salt for every link that may move, for the same reason.
- Lease holders, operation start times, dirty-capture and semantic device lists, state proofs: they decide nothing in the modelled steps beyond further refusals.
- 64-bit wrap-around of generations, sequence numbers and operation ids, and the 32-bit truncation of probe salts: numbers are unbounded.
- The randomness of fence tokens and the FNV hash: tokens are parameters, the hash is any function with a free salt for each link.
- A node without a state store: it behaves like one whose journal is never readable.
- Follow-on reads of the journal of events, merging of event histories and the ordering of events across nodes: easy next to the follower.
- Container, netlink and deploy engines, HTTP handlers, authorization and TLS: their answers are parameters.
- The prune set of a rollback (solve_transition.go:314-350) and the choice of recovery strategy: set building without further state.
- Real concurrency inside one locked section: each section is one step, interleaved with all others.
