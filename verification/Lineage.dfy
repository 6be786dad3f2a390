/**
 Generation lineage: the ancestors of a lab are duplicate-free and only grow
 until a destroy, and the generation recorded for every overlay is an ancestor.
 */
module Lineage {
  import opened Common
  import opened CoordinationState
  import opened RecordSteps
  import opened RequestSteps
  import opened CoordinationRun
  import opened Operations
  import opened Transactions

  // ---------- the ancestor list ----------

  lemma {:induction false} FirstOccurrencesMembers(values: seq<Generation>)
    ensures forall x :: x in FirstOccurrences(values) <==> x in values && x != ""
    ensures Distinct(FirstOccurrences(values))
  {
    if values != [] {
      FirstOccurrencesMembers(values[..|values| - 1]);
      assert values == values[..|values| - 1] + [values[|values| - 1]];
    }
  }

  lemma {:induction false} FirstOccurrencesOfDistinct(values: seq<Generation>)
    requires Distinct(values) && "" !in values
    ensures FirstOccurrences(values) == values
  {
    if values != [] {
      var init := values[..|values| - 1];
      assert values == init + [values[|values| - 1]];
      FirstOccurrencesOfDistinct(init);
    }
  }

  /** Ancestors as a journal may hold them. */
  predicate GoodAncestors(ancestors: seq<Generation>) {
    Distinct(ancestors) && "" !in ancestors
  }

  /** Appending a lineage extends the list by what is new, in order. */
  lemma AppendExtends(existing: seq<Generation>, previous: Generation, current: Generation)
    requires GoodAncestors(existing)
    ensures var out := AppendLineage(existing, previous, current);
            && GoodAncestors(out)
            && existing <= out
            && (forall x :: x in out <==> x in existing || (x in {previous, current} && x != ""))
  {
    var values := existing + [previous, current];
    FirstOccurrencesMembers(values);
    FirstOccurrencesOfDistinct(existing);
    assert values[..|values| - 1] == existing + [previous];
    assert (existing + [previous])[..|existing|] == existing;
    assert FirstOccurrences(existing + [previous]) ==
           if previous == "" || previous in existing then existing else existing + [previous];
  }

  // ---------- every record step ----------

  /** Every recorded generation is one of the ancestors. */
  ghost predicate AllAncestors(lineage: map<VNI, Generation>, ancestors: seq<Generation>) {
    forall x :: x in lineage ==> lineage[x] in ancestors
  }

  /** Every overlay of the lab carries a generation that is one of its ancestors. */
  ghost predicate LabLineage(r: Records, lab: Lab) {
    && GoodAncestors(GenerationOf(r, lab).ancestors)
    && AllAncestors(LineageOf(r, lab), GenerationOf(r, lab).ancestors)
  }

  /** The ancestors of a lab are kept, possibly with new ones after them. */
  predicate AncestorsGrow(r: Records, r': Records, lab: Lab) {
    GenerationOf(r, lab).ancestors <= GenerationOf(r', lab).ancestors
  }

  /** The journal records the same lineage as memory. */
  ghost predicate SameLineage(r: Records, r': Records, lab: Lab) {
    && GenerationOf(r, lab).ancestors == GenerationOf(r', lab).ancestors
    && LineageOf(r, lab) == LineageOf(r', lab)
  }

  lemma CommitStepKeepsLineage(r: Records, lab: Lab, accepted: bool, g: nat, generation: Generation,
                               inventory: Option<Inventory>, ok: bool)
    requires LabLineage(r, lab) && (lab in r.transactions ==> r.transactions[lab].generation != "")
    ensures var w := CommitStep(r, lab, accepted, g, generation, inventory, ok);
            && LabLineage(w.records, lab) && AncestorsGrow(r, w.records, lab)
            && (w.saved || SameLineage(r, w.records, lab))
  {
    if !CanCommit(r, lab, accepted, g, generation) {
    } else if !ok {
    } else {
      var was := GenerationOf(r, lab);
      AppendExtends(was.ancestors, was.committed, r.transactions[lab].generation);
    }
  }

  /** Without a save, memory keeps the lineage it had. */
  lemma RecordKeepsLineage(r: Records, lab: Lab, accepted: bool, g: nat, e: RecordEvent, ok: bool)
    requires LabLineage(r, lab) && (lab in r.transactions ==> r.transactions[lab].generation != "")
    ensures var w := RecordStep(r, lab, accepted, g, e, ok);
            && LabLineage(w.records, lab) && AncestorsGrow(r, w.records, lab)
            && (w.saved || SameLineage(r, w.records, lab))
  {
    if e.Commit? {
      CommitStepKeepsLineage(r, lab, accepted, g, e.generation, e.inventory, ok);
    }
  }

  ghost predicate LineageInv(s: State, lab: Lab) {
    LabLineage(s.mem.records, lab) && SameLineage(s.mem.records, s.disk.records, lab)
  }

  /** The same of any lab, next to the journal `d` that a save replaces. */
  lemma WriteKeepsLineage(r: Records, d: Records, target: Lab, accepted: bool, g: nat, e: RecordEvent, ok: bool,
                          lab: Lab)
    requires LabLineage(r, lab) && SameLineage(r, d, lab)
    requires lab in r.transactions ==> r.transactions[lab].generation != ""
    ensures var w := RecordStep(r, target, accepted, g, e, ok);
            && LabLineage(w.records, lab) && AncestorsGrow(r, w.records, lab)
            && (w.saved || SameLineage(w.records, d, lab))
  {
    if lab == target {
      RecordKeepsLineage(r, lab, accepted, g, e, ok);
    } else {
      OtherLabsUntouched(r, target, accepted, g, e, ok, lab);
    }
  }

  lemma RestartKeepsLineage(s: State, lab: Lab)
    requires LineageInv(s, lab)
    ensures LineageInv(Step(s, Restart(true)), lab)
    ensures AncestorsGrow(s.mem.records, Step(s, Restart(true)).mem.records, lab)
  {}

  lemma StepKeepsLineage(s: State, e: Event, lab: Lab)
    requires LineageInv(s, lab) && TxInv(s, lab) && Readable(e)
    ensures LineageInv(Step(s, e), lab)
    ensures !(e.Destroy? && e.lab == lab) ==> AncestorsGrow(s.mem.records, Step(s, e).mem.records, lab)
  {
    if e.OnRecords? {
      if Reachable(s.requests, e.lab, e.fence, e.record) {
        WriteKeepsLineage(s.mem.records, s.disk.records, e.lab, AcceptedAt(s, e), e.fence.generation, e.record, e.ok,
                          lab);
      }
    } else if e.Restart? {
      RestartKeepsLineage(s, lab);
    }
  }

  /** The lineage invariant holds in every reachable state, and only a destroy drops ancestors. */
  lemma {:induction false} RunKeepsLineage(ss: seq<State>, es: seq<Event>, n: nat, lab: Lab)
    requires IsRun(ss, es) && Durable(es) && n < |ss|
    ensures LineageInv(ss[n], lab)
    ensures n > 0 && !(es[n - 1].Destroy? && es[n - 1].lab == lab) ==>
              AncestorsGrow(ss[n - 1].mem.records, ss[n].mem.records, lab)
  {
    if n > 0 {
      assert StepAt(ss, es, n - 1);
      RunKeepsLineage(ss, es, n - 1, lab);
      RunKeepsTx(ss, es, n - 1, lab);
      StepKeepsLineage(ss[n - 1], es[n - 1], lab);
    }
  }

  /** Between two destroys of a lab its ancestors only gain new ones at the end. */
  lemma {:induction false} AncestorsAreKept(ss: seq<State>, es: seq<Event>, i: nat, k: nat, lab: Lab)
    requires IsRun(ss, es) && Durable(es) && i <= k < |ss|
    requires forall m | i <= m < k :: !(es[m].Destroy? && es[m].lab == lab)
    ensures AncestorsGrow(ss[i].mem.records, ss[k].mem.records, lab)
    decreases k
  {
    if i < k {
      AncestorsAreKept(ss, es, i, k - 1, lab);
      RunKeepsLineage(ss, es, k, lab);
    }
  }

  // ---------- what one commit records ----------

  /** The generation a commit leaves on an overlay of its inventory. */
  predicate CarriesItsGeneration(before: Records, tx: Transaction, after: Records, lab: Lab, v: VNI) {
    && v in LineageOf(after, lab)
    && var kept := v in LineageOf(before, lab) && LineageOf(before, lab)[v] != ""
                   && !(tx.touchedKnown && v in tx.touched);
    LineageOf(after, lab)[v] == if kept then LineageOf(before, lab)[v] else tx.generation
  }

  /**
   A saved commit with an inventory moves the touched overlays to the new
   generation, keeps the recorded generation of the others and records nothing
   else; a commit whose save failed keeps ancestors and lineage.
   */
  lemma CommitMovesTouched(r: Records, lab: Lab, g: nat, generation: Generation, inventory: Option<Inventory>,
                           ok: bool)
    requires CanCommit(r, lab, true, g, generation) && LabLineage(r, lab)
    ensures var r' := CommitStep(r, lab, true, g, generation, inventory, ok).records;
            && (!ok ==> SameLineage(r, r', lab) && r'.inventories == r.inventories)
            && (ok && inventory.Some? ==>
                  && r'.inventories[lab] == inventory.value
                  && (forall v :: v in inventory.value.vnis ==>
                        CarriesItsGeneration(r, r.transactions[lab], r', lab, v))
                  && (forall v :: v in LineageOf(r', lab) ==> v in inventory.value.vnis))
            && (ok && generation != "" ==>
                  generation in GenerationOf(r', lab).ancestors && AncestorsGrow(r, r', lab))
  {
    AppendExtends(GenerationOf(r, lab).ancestors, GenerationOf(r, lab).committed, generation);
  }

  // ---------- touched overlays ----------

  lemma RecordKeepsTouched(r: Records, lab: Lab, accepted: bool, g: nat, e: RecordEvent, ok: bool, x: VNI)
    requires lab in r.transactions && x in r.transactions[lab].touched && x != 0
    ensures var after := RecordStep(r, lab, accepted, g, e, ok).records.transactions;
            lab in after ==> x in after[lab].touched
  {}

  lemma StepKeepsTouched(s: State, e: Event, lab: Lab, x: VNI)
    requires lab in s.mem.records.transactions && x in s.mem.records.transactions[lab].touched && x != 0
    requires !e.Restart? && lab in Step(s, e).mem.records.transactions
    ensures x in Step(s, e).mem.records.transactions[lab].touched
  {
    if e.OnRecords? && Reachable(s.requests, e.lab, e.fence, e.record) {
      RecordFrame(s, e);
      if e.lab == lab {
        RecordKeepsTouched(s.mem.records, lab, AcceptedAt(s, e), e.fence.generation, e.record, e.ok, x);
      } else {
        OtherLabsUntouched(s.mem.records, e.lab, AcceptedAt(s, e), e.fence.generation, e.record, e.ok, lab);
      }
    }
  }

  /** An overlay recorded as touched stays so while the transaction is open and the process lives. */
  lemma {:induction false} TouchedIsKept(ss: seq<State>, es: seq<Event>, i: nat, k: nat, lab: Lab, x: VNI)
    requires IsRun(ss, es) && i <= k < |ss| && x != 0
    requires forall m | i <= m <= k :: lab in ss[m].mem.records.transactions
    requires forall m | i <= m < k :: !es[m].Restart?
    requires x in ss[i].mem.records.transactions[lab].touched
    ensures x in ss[k].mem.records.transactions[lab].touched
    decreases k
  {
    if i < k {
      TouchedIsKept(ss, es, i, k - 1, lab, x);
      assert StepAt(ss, es, k - 1);
      StepKeepsTouched(ss[k - 1], es[k - 1], lab, x);
    }
  }
}
