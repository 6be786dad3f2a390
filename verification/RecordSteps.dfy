/**
 The steps on generations, transactions, inventories and overlay lineage.
 `accepted` says whether the caller's fence was accepted and `g` is its
 generation; `ok` says whether the save of the step succeeded.
 */
module RecordSteps {
  import opened Common
  import opened CoordinationState

  /** The new records and whether they were saved. */
  datatype RecordWrite = RecordWrite(records: Records, saved: bool)

  function Unchanged(r: Records): RecordWrite { RecordWrite(r, false) }

  /** The values of a list in their first-occurrence order, without "" and repeats. */
  function FirstOccurrences(values: seq<Generation>): seq<Generation> {
    if values == [] then []
    else
      var out := FirstOccurrences(values[..|values| - 1]);
      var last := values[|values| - 1];
      if last == "" || last in out then out else out + [last]
  }

  function AppendLineage(existing: seq<Generation>, previous: Generation, current: Generation):
    seq<Generation>
  {
    FirstOccurrences(existing + [previous, current])
  }

  function MergeTouched(existing: seq<VNI>, added: seq<VNI>): seq<VNI> {
    SortedSeq(Members(existing + added) - {0})
  }

  /** The lineage a commit records for the VNIs of its inventory. */
  function CommitLineage(tx: Transaction, before: map<VNI, Generation>, vnis: seq<VNI>):
    map<VNI, Generation>
  {
    map v | v in vnis ::
      if tx.touchedKnown && v in tx.touched then tx.generation
      else if v in before && before[v] != "" then before[v]
      else tx.generation
  }

  /** How the lab was built before: as its topology file says, platform without one. */
  function PreviousMode(plan: Plan): Mode {
    if plan.stored.Some? then plan.stored.value.mode else Platform
  }

  /** The topology file a commit writes; a scoped plan keeps how the lab was built. */
  function CommittedFile(tx: Transaction): TopologyFile {
    var ungraded := if tx.plan.stored.Some? then tx.plan.stored.value.ungraded else 0;
    if tx.plan.scoped then TopologyFile(tx.generation, PreviousMode(tx.plan), ungraded, tx.plan.vnis)
    else TopologyFile(tx.generation, tx.plan.mode, tx.plan.ungraded, tx.plan.vnis)
  }

  /** The solve must have preserved what it is going to prune. */
  predicate PreservationRequired(plan: Plan) {
    plan.prune && plan.mode == Solve && PreviousMode(plan) != Solve
  }

  predicate ApplyRefused(tx: Transaction) {
    PreservationRequired(tx.plan) && tx.solve.None?
  }

  // ---------- prepare, apply ----------

  predicate CanPrepare(r: Records, lab: Lab, accepted: bool, expected: Generation, generation: Generation) {
    && generation != ""
    && accepted
    && lab !in r.transactions
    && GenerationOf(r, lab).committed == expected
  }

  function Opened(g: nat, previous: Generation, generation: Generation, plan: Plan): Transaction {
    Transaction(generation, g, previous, plan, None, [], false, Phase.Prepared, false, false)
  }

  function PrepareStep(r: Records, lab: Lab, accepted: bool, g: nat, expected: Generation,
                       generation: Generation, plan: Plan, ok: bool): RecordWrite
  {
    if !CanPrepare(r, lab, accepted, expected, generation) then Unchanged(r)
    else
      var was := GenerationOf(r, lab);
      if ok then
        RecordWrite(r.(transactions := r.transactions[lab := Opened(g, was.committed, generation, plan)],
                       generations := r.generations[lab := was.(prepared := generation)]), true)
      else RecordWrite(r.(generations := r.generations[lab := was.(prepared := "")]), false)
  }

  /** The record updates a fenced controller makes between prepare and commit. */
  datatype Update =
    | MarkApplying
    | MarkApplied
    | RecordSolve(record: SolveRecord)
    | RecordTouched(vnis: seq<VNI>, known: bool)

  function Updated(tx: Transaction, u: Update): Transaction {
    match u
    case MarkApplying => tx.(phase := Phase.Applying)
    case MarkApplied => tx.(phase := Phase.Applied, applied := true)
    case RecordSolve(record) => tx.(solve := Some(record))
    case RecordTouched(vnis, known) =>
      tx.(touched := MergeTouched(tx.touched, vnis), touchedKnown := tx.touchedKnown || known)
  }

  predicate HasTransaction(r: Records, lab: Lab, accepted: bool, generation: Generation) {
    accepted && lab in r.transactions && r.transactions[lab].generation == generation
  }

  /** The open transaction of the lab was prepared (or re-fenced) by this fence. */
  predicate OwnsTransaction(r: Records, lab: Lab, accepted: bool, g: nat, generation: Generation) {
    HasTransaction(r, lab, accepted, generation) && r.transactions[lab].fence == g
  }

  function SetTransaction(r: Records, lab: Lab, tx: Transaction): Records {
    r.(transactions := r.transactions[lab := tx])
  }

  /** A failed save keeps the update in memory. */
  function AdvanceStep(r: Records, lab: Lab, accepted: bool, g: nat, generation: Generation,
                       u: Update, ok: bool): RecordWrite
  {
    if !OwnsTransaction(r, lab, accepted, g, generation) then Unchanged(r)
    else RecordWrite(SetTransaction(r, lab, Updated(r.transactions[lab], u)), ok)
  }

  /** A newer fence may mark the phase of a transaction it does not own. */
  function MarkPhaseStep(r: Records, lab: Lab, accepted: bool, generation: Generation,
                         phase: Phase, ok: bool): RecordWrite
  {
    if !HasTransaction(r, lab, accepted, generation) then Unchanged(r)
    else RecordWrite(SetTransaction(r, lab, r.transactions[lab].(phase := phase)), ok)
  }

  // ---------- commit, finalize ----------

  /** A commit request goes on only with a transaction that no recovery was asked for. */
  predicate Committable(r: Records, lab: Lab, accepted: bool, g: nat, generation: Generation) {
    && CanCommit(r, lab, accepted, g, generation)
    && r.transactions[lab].phase !in {RollbackNeeded, Phase.Recovering, RollbackFailed}
  }

  predicate CanCommit(r: Records, lab: Lab, accepted: bool, g: nat, generation: Generation) {
    OwnsTransaction(r, lab, accepted, g, generation) && r.transactions[lab].applied
  }

  /** Writes the generation record of a lab back as it was read. */
  function GenerationWrittenBack(r: Records, lab: Lab): Records {
    r.(generations := r.generations[lab := GenerationOf(r, lab)])
  }

  /** A failed save restores everything but the phase. */
  function CommitStep(r: Records, lab: Lab, accepted: bool, g: nat, generation: Generation,
                      inventory: Option<Inventory>, ok: bool): RecordWrite
  {
    if !CanCommit(r, lab, accepted, g, generation) then Unchanged(r)
    else
      var tx := r.transactions[lab].(phase := Phase.Committed);
      if ok then RecordWrite(CommitRecords(r, lab, tx, inventory), true)
      else
        RecordWrite(GenerationWrittenBack(SetTransaction(r, lab, tx.(committed := false)), lab), false)
  }

  function CommitRecords(r: Records, lab: Lab, tx: Transaction, inventory: Option<Inventory>): Records {
    var was := GenerationOf(r, lab);
    var ancestors := AppendLineage(was.ancestors, was.committed, tx.generation);
    var m := r.(transactions := r.transactions[lab := tx.(committed := true)],
                generations := r.generations[lab := GenerationState(tx.generation, "", ancestors)]);
    if inventory.None? then m
    else m.(inventories := r.inventories[lab := inventory.value],
            lineage := r.lineage[lab := CommitLineage(tx, LineageOf(r, lab), inventory.value.vnis)])
  }

  function FinalizeStep(r: Records, lab: Lab, accepted: bool, g: nat, generation: Generation, ok: bool):
    RecordWrite
  {
    if OwnsTransaction(r, lab, accepted, g, generation) && r.transactions[lab].committed && ok
    then RecordWrite(r.(transactions := r.transactions - {lab}), true)
    else Unchanged(r)
  }

  // ---------- recovery ----------

  /** After a failed save the transaction is back, the generation record is not. */
  function RecoverStep(r: Records, lab: Lab, accepted: bool, generation: Generation, ok: bool): RecordWrite {
    if !HasTransaction(r, lab, accepted, generation) then Unchanged(r)
    else
      var tx := r.transactions[lab];
      var m := r.(
        generations := r.generations[lab :=
          GenerationOf(r, lab).(committed := tx.previous, prepared := "")],
        inventories := r.inventories[lab := tx.plan.prestate]);
      RecordWrite(if ok then m.(transactions := m.transactions - {lab}) else m, ok)
  }

  /** Turns a committed, unfinalized transaction back into rollback work. */
  function ReopenStep(r: Records, lab: Lab, accepted: bool, generation: Generation, ok: bool): RecordWrite {
    if !(HasTransaction(r, lab, accepted, generation) && r.transactions[lab].committed) then Unchanged(r)
    else if !ok then Unchanged(GenerationWrittenBack(r, lab))
    else
      var tx := r.transactions[lab].(committed := false, phase := RollbackNeeded);
      RecordWrite(
        r.(transactions := r.transactions[lab := tx],
           generations := r.generations[lab :=
             GenerationOf(r, lab).(committed := tx.previous, prepared := generation)]), true)
  }

  /** Forward recovery puts an open transaction under its own, newer fence. */
  function RefenceStep(r: Records, lab: Lab, g: nat, generation: Generation, ok: bool): RecordWrite {
    if !HasTransaction(r, lab, true, generation) then Unchanged(r)
    else
      RecordWrite(SetTransaction(r, lab,
                    r.transactions[lab].(fence := g, phase := Phase.Applying)), ok)
  }

  /** Overlay reconciliation replaces the committed inventory and closes its transaction. */
  function AbsorbStep(r: Records, lab: Lab, refreshed: Inventory, ok: bool): RecordWrite {
    if !(lab in r.inventories && r.inventories[lab].generation == refreshed.generation) then Unchanged(r)
    else if !ok then Unchanged(GenerationWrittenBack(r, lab))
    else
      var m := r.(inventories := r.inventories[lab := refreshed]);
      if !Absorbs(r, lab, refreshed) then RecordWrite(m, true)
      else
        var was := GenerationOf(r, lab);
        RecordWrite(
          m.(transactions := r.transactions - {lab},
             generations := if was.prepared == refreshed.generation
                            then r.generations[lab := was.(prepared := "")] else r.generations), true)
  }

  predicate Absorbs(r: Records, lab: Lab, refreshed: Inventory) {
    && lab in r.transactions
    && r.transactions[lab].committed
    && r.transactions[lab].generation == refreshed.generation
  }

  /** What a destroy drops, apart from the claims of the lab. */
  function DestroyRecords(r: Records, lab: Lab): Records {
    Records(r.generations - {lab}, r.transactions - {lab}, r.inventories - {lab}, r.lineage - {lab})
  }

  /** The topology file of a lab decides its committed generation on restart. */
  function Rehydrated(r: Records, topology: map<Lab, TopologyFile>): Records {
    r.(generations := map lab | lab in r.generations.Keys + topology.Keys ::
         if lab in topology then GenerationOf(r, lab).(committed := topology[lab].generation)
         else r.generations[lab])
  }

  // ---------- events ----------

  datatype RecordEvent =
    | Prepare(expected: Generation, generation: Generation, plan: Plan)
    | Advance(generation: Generation, update: Update)
    | MarkPhase(generation: Generation, phase: Phase)
    | Commit(generation: Generation, inventory: Option<Inventory>)
    | Finalize(generation: Generation)
    | StartRecovery(generation: Generation, forward: bool)
    | Recover(generation: Generation)
    | Reopen(generation: Generation)
    | Refence(generation: Generation)
    | Absorb(refreshed: Inventory)

  function RecordStep(r: Records, lab: Lab, accepted: bool, g: nat, e: RecordEvent, ok: bool):
    RecordWrite
  {
    match e
    case Prepare(expected, generation, plan) =>
      PrepareStep(r, lab, accepted, g, expected, generation, plan, ok)
    case Advance(generation, u) => AdvanceStep(r, lab, accepted, g, generation, u, ok)
    case MarkPhase(generation, phase) => MarkPhaseStep(r, lab, accepted, generation, phase, ok)
    case Commit(generation, inventory) => CommitStep(r, lab, accepted, g, generation, inventory, ok)
    case Finalize(generation) => FinalizeStep(r, lab, accepted, g, generation, ok)
    case StartRecovery(generation, _) =>
      MarkPhaseStep(r, lab, accepted, generation, Phase.Recovering, ok)
    case Recover(generation) => RecoverStep(r, lab, accepted, generation, ok)
    case Reopen(generation) => ReopenStep(r, lab, accepted, generation, ok)
    case Refence(generation) => RefenceStep(r, lab, g, generation, ok)
    case Absorb(refreshed) => AbsorbStep(r, lab, refreshed, ok)
  }
}
