/**
 The inventory of a lab over whole runs: which steps change it, and that a
 recovery puts back the one its prepare found.
 */
module Inventories {
  import opened Common
  import opened CoordinationState
  import opened RecordSteps
  import opened RequestSteps
  import opened CoordinationRun
  import opened Operations
  import opened TransactionRuns

  function InventoryOf(r: Records, lab: Lab): Option<Inventory> {
    if lab in r.inventories then Some(r.inventories[lab]) else None
  }

  // ---------- which steps change it ----------

  /** A record event of the lab that leaves this inventory. */
  predicate Writes(r: Records, e: RecordEvent, lab: Lab, ok: bool, inventory: Inventory) {
    || (e.Commit? && ok && e.inventory == Some(inventory))
    || (e.Recover? && lab in r.transactions && r.transactions[lab].generation == e.generation
        && inventory == r.transactions[lab].plan.prestate)
    || (e.Absorb? && ok && e.refreshed == inventory && lab in r.inventories
        && r.inventories[lab].generation == inventory.generation)
  }

  lemma RecordWritesInventory(r: Records, target: Lab, accepted: bool, g: nat, e: RecordEvent, ok: bool, lab: Lab)
    ensures var after := InventoryOf(RecordStep(r, target, accepted, g, e, ok).records, lab);
            || after == InventoryOf(r, lab)
            || (lab == target && after.Some? && Writes(r, e, lab, ok, after.value))
  {}

  /**
   The inventory of a lab changes only by a saved commit that brings one, a
   recovery, a reconciliation of the same generation or a destroy, each of that
   lab, or by a restart, which reads it from the journal.
   */
  lemma InventoryChangesOnlyBy(ss: seq<State>, es: seq<Event>, n: nat, lab: Lab)
    requires IsRun(ss, es) && n < |es|
    requires InventoryOf(ss[n + 1].mem.records, lab) != InventoryOf(ss[n].mem.records, lab)
    ensures var after := InventoryOf(ss[n + 1].mem.records, lab);
            || (&& IsRecord(es[n], lab) && after.Some?
                && Writes(ss[n].mem.records, es[n].record, lab, es[n].ok, after.value))
            || (es[n].Destroy? && es[n].lab == lab && es[n].ok && after.None?)
            || (es[n].Restart? && after == if es[n].readable then InventoryOf(ss[n].disk.records, lab) else None)
  {
    assert StepAt(ss, es, n);
    var s, e := ss[n], es[n];
    if e.OnRecords? && Reachable(s.requests, e.lab, e.fence, e.record) {
      RecordFrame(s, e);
      RecordWritesInventory(s.mem.records, e.lab, AcceptedAt(s, e), e.fence.generation, e.record, e.ok, lab);
    }
  }

  // ---------- a recovery puts it back ----------

  /** The open transaction of the lab, as it was planned. */
  ghost predicate PlannedAs(s: State, lab: Lab, e: Event)
    requires IsRecord(e, lab) && e.record.Prepare?
  {
    && lab in s.mem.records.transactions
    && s.mem.records.transactions[lab].generation == e.record.generation
    && s.mem.records.transactions[lab].previous == e.record.expected
    && s.mem.records.transactions[lab].plan == e.record.plan
  }

  /** The prepare that opened the transaction of a lab, and whose plan it still follows. */
  lemma {:induction false} OpenedBy(ss: seq<State>, es: seq<Event>, n: nat, lab: Lab) returns (q: nat)
    requires IsRun(ss, es) && Durable(es) && n < |ss| && lab in ss[n].mem.records.transactions
    ensures q < n && IsRecord(es[q], lab) && es[q].record.Prepare?
    ensures PreparesAt(ss[q], es[q], lab, es[q].fence.generation, es[q].record.generation)
    ensures forall m | q < m <= n :: PlannedAs(ss[m], lab, es[q])
  {
    if n == 0 {
      assert false;
    } else {
      RunMovesTx(ss, es, n - 1, lab);
      if lab !in ss[n - 1].mem.records.transactions {
        q := n - 1;
      } else {
        q := OpenedBy(ss, es, n - 1, lab);
      }
    }
  }

  lemma RecoveryWrites(s: State, e: Event, lab: Lab)
    requires Happens(s, e, lab) && e.record.Recover?
    requires lab in s.mem.records.transactions && lab !in Step(s, e).mem.records.transactions
    ensures var s', tx := Step(s, e), s.mem.records.transactions[lab];
            && s'.disk == s'.mem
            && InventoryOf(s'.mem.records, lab) == Some(tx.plan.prestate)
            && GenerationOf(s'.mem.records, lab).committed == tx.previous
            && GenerationOf(s'.mem.records, lab).prepared == ""
  {}

  /**
   A recovery that closes a transaction, whatever was committed, reopened or
   re-fenced in between, leaves in memory and in the journal the inventory that
   its prepare found and the generation it compared against.
   */
  lemma RecoveryRestoresInventory(ss: seq<State>, es: seq<Event>, k: nat, lab: Lab) returns (q: nat)
    requires IsRun(ss, es) && Durable(es) && k < |es| && IsRecord(es[k], lab) && es[k].record.Recover?
    requires lab in ss[k].mem.records.transactions && lab !in ss[k + 1].mem.records.transactions
    ensures q < k && IsRecord(es[q], lab) && es[q].record.Prepare?
    ensures forall m | q < m <= k :: PlannedAs(ss[m], lab, es[q])
    ensures InventoryOf(ss[k + 1].mem.records, lab) == InventoryOf(ss[k + 1].disk.records, lab)
         == Some(es[q].record.plan.prestate)
    ensures GenerationOf(ss[k + 1].mem.records, lab).committed == es[q].record.expected
  {
    q := OpenedBy(ss, es, k, lab);
    assert StepAt(ss, es, k);
    assert PlannedAs(ss[k], lab, es[q]);
    RecoveryWrites(ss[k], es[k], lab);
  }
}
