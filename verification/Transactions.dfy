/**
 The transaction records of one lab in every reachable state, whatever requests
 overtake each other.
 */
module Transactions {
  import opened Common
  import opened CoordinationState
  import opened RecordSteps
  import opened RequestSteps
  import opened CoordinationRun
  import opened Operations
  import opened Fencing

  /** The records of one lab are the same in both. */
  ghost predicate SameLab(r: Records, r': Records, lab: Lab) {
    && (lab in r.transactions <==> lab in r'.transactions)
    && (lab in r.transactions ==> r.transactions[lab] == r'.transactions[lab])
    && GenerationOf(r, lab) == GenerationOf(r', lab)
    && LineageOf(r, lab) == LineageOf(r', lab)
  }

  /** A prepared generation names the open transaction, and a committed one was applied. */
  predicate RecordsFit(r: Records, lab: Lab) {
    var prepared := GenerationOf(r, lab).prepared;
    if lab in r.transactions then
      var tx := r.transactions[lab];
      && tx.generation != ""
      && prepared in {"", tx.generation}
      && (tx.committed ==> tx.applied && prepared == "")
    else prepared == ""
  }

  /** A journalled transaction is the one in memory, perhaps with other marks. */
  predicate SameTransaction(tx: Transaction, disk: Transaction) {
    && tx.generation == disk.generation
    && tx.previous == disk.previous
    && tx.plan == disk.plan
    && (disk.applied ==> tx.applied)
  }

  /** What holds of one lab: `m` in memory, `d` in the journal. */
  ghost predicate BothFit(m: Records, d: Records, marks: Table, lab: Lab) {
    && RecordsFit(m, lab) && RecordsFit(d, lab)
    && (lab in m.transactions <==> lab in d.transactions)
    && (lab in m.transactions ==>
          && SameTransaction(m.transactions[lab], d.transactions[lab])
          && WasIssued(marks, lab, m.transactions[lab].fence) && WasIssued(marks, lab, d.transactions[lab].fence))
  }

  ghost predicate TxInv(s: State, lab: Lab) {
    BothFit(s.mem.records, s.disk.records, s.disk.table, lab)
  }

  // ---------- record steps ----------

  predicate IsForward(e: RecordEvent) {
    e.Prepare? || e.Advance? || e.MarkPhase? || e.Commit? || e.Finalize?
  }

  lemma RecoveryLeavesOthers(r: Records, lab0: Lab, accepted: bool, g: nat, e: RecordEvent, ok: bool, lab: Lab)
    requires lab != lab0 && !IsForward(e)
    ensures SameLab(r, RecordStep(r, lab0, accepted, g, e, ok).records, lab)
  {}

  /** A record step of one lab leaves every other lab alone. */
  lemma OtherLabsUntouched(r: Records, lab0: Lab, accepted: bool, g: nat, e: RecordEvent, ok: bool, lab: Lab)
    requires lab != lab0
    ensures SameLab(r, RecordStep(r, lab0, accepted, g, e, ok).records, lab)
  {
    if !IsForward(e) {
      RecoveryLeavesOthers(r, lab0, accepted, g, e, ok, lab);
    }
  }

  /** The journal after a record step. */
  function DiskRecords(d: Records, w: RecordWrite): Records {
    if w.saved then w.records else d
  }

  /** A step by an issued fence keeps the records of its lab fitting. */
  lemma RecordKeepsFit(m: Records, d: Records, marks: Table, lab: Lab, accepted: bool, g: nat, e: RecordEvent,
                       ok: bool)
    requires BothFit(m, d, marks, lab) && (accepted || e.Refence? ==> WasIssued(marks, lab, g))
    ensures var w := RecordStep(m, lab, accepted, g, e, ok);
            BothFit(w.records, DiskRecords(d, w), marks, lab)
  {
    if IsForward(e) {
      ForwardKeepsFit(m, d, marks, lab, accepted, g, e, ok);
    } else {
      RecoveryKeepsFit(m, d, marks, lab, accepted, g, e, ok);
    }
  }

  lemma RecoveryKeepsFit(m: Records, d: Records, marks: Table, lab: Lab, accepted: bool, g: nat, e: RecordEvent,
                         ok: bool)
    requires BothFit(m, d, marks, lab) && !IsForward(e) && (e.Refence? ==> WasIssued(marks, lab, g))
    ensures var w := RecordStep(m, lab, accepted, g, e, ok);
            BothFit(w.records, DiskRecords(d, w), marks, lab)
  {}

  lemma ForwardKeepsFit(m: Records, d: Records, marks: Table, lab: Lab, accepted: bool, g: nat, e: RecordEvent,
                        ok: bool)
    requires BothFit(m, d, marks, lab) && IsForward(e) && (accepted ==> WasIssued(marks, lab, g))
    ensures var w := RecordStep(m, lab, accepted, g, e, ok);
            BothFit(w.records, DiskRecords(d, w), marks, lab)
  {}

  /** What was saved can be read back, and marks only grow. */
  lemma SavedFits(m: Records, d: Records, marks: Table, marks': Table, lab: Lab)
    requires BothFit(m, d, marks, lab) && HighWater(marks, lab) <= HighWater(marks', lab)
    ensures BothFit(m, m, marks', lab) && BothFit(m, d, marks', lab)
  {}

  lemma SameLabFits(m: Records, m': Records, d: Records, d': Records, marks: Table, lab: Lab)
    requires BothFit(m, d, marks, lab) && SameLab(m, m', lab) && (SameLab(d, d', lab) || d' == m')
    ensures BothFit(m', d', marks, lab)
  {}

  lemma RecordEventKeepsTx(s: State, e: Event, lab: Lab)
    requires TxInv(s, lab) && FenceInv(s) && e.OnRecords?
    requires e.record.Refence? && Happens(s, e, lab) ==> WasIssued(s.disk.table, lab, e.fence.generation)
    ensures TxInv(Step(s, e), lab)
  {
    if Reachable(s.requests, e.lab, e.fence, e.record) {
      var w := RecordStep(s.mem.records, e.lab, AcceptedAt(s, e), e.fence.generation, e.record, e.ok);
      var d := DiskRecords(s.disk.records, w);
      if lab == e.lab {
        RecordKeepsFit(s.mem.records, s.disk.records, s.disk.table, lab, AcceptedAt(s, e), e.fence.generation,
                       e.record, e.ok);
      } else {
        OtherLabsUntouched(s.mem.records, e.lab, AcceptedAt(s, e), e.fence.generation, e.record, e.ok, lab);
        SameLabFits(s.mem.records, w.records, s.disk.records, d, s.disk.table, lab);
      }
      SavedFits(w.records, d, s.disk.table, s.mem.table, lab);
    }
  }

  lemma DestroyKeepsTx(s: State, e: Event, lab: Lab)
    requires TxInv(s, lab) && FenceInv(s) && e.Destroy?
    ensures TxInv(Step(s, e), lab)
  {
    if lab != e.lab {
      SavedFits(s.mem.records, s.disk.records, s.disk.table, s.mem.table, lab);
      SameLabFits(s.mem.records, DestroyRecords(s.mem.records, e.lab), s.mem.records,
                  DestroyRecords(s.mem.records, e.lab), s.mem.table, lab);
    }
  }

  /** Memory and journal have the same open transaction of a lab in every reachable state. */
  lemma {:induction false} RunKeepsTx(ss: seq<State>, es: seq<Event>, n: nat, lab: Lab)
    requires IsRun(ss, es) && Durable(es) && n < |ss|
    ensures TxInv(ss[n], lab)
  {
    if n > 0 {
      assert StepAt(ss, es, n - 1);
      RunKeepsTx(ss, es, n - 1, lab);
      RunKeepsFenceInv(ss, es, n - 1);
      var s, e := ss[n - 1], es[n - 1];
      if e.OnRecords? {
        if e.record.Refence? && Happens(s, e, lab) { RunKeepsIssued(ss, es, n - 1, lab); }
        RecordEventKeepsTx(s, e, lab);
      } else if e.Destroy? {
        DestroyKeepsTx(s, e, lab);
      } else if e.OnTable? || e.SaveAll? {
        StepMovesFences(s, e, lab);
        SavedFits(s.mem.records, s.disk.records, s.disk.table, ss[n].disk.table, lab);
      }
    }
  }

  // ---------- destroy ----------

  /** Memory or the journal, without anything of the lab but its high-water mark. */
  predicate Forgotten(j: Journal, lab: Lab) {
    && lab !in j.records.transactions && lab !in j.records.generations
    && lab !in j.records.inventories && lab !in j.records.lineage
    && forall x :: x in j.table.claims ==> j.table.claims[x].lab != lab
  }

  /**
   A destroy by an accepted fence that is saved forgets the lab, in memory and in
   the journal, so that a restart does not bring it back while its topology file
   is gone; its high-water mark and every other lab stay.
   */
  lemma DestroyForgets(ss: seq<State>, es: seq<Event>, n: nat, lab: Lab, f: Fence, other: Lab)
    requires IsRun(ss, es) && n < |es| && es[n] == Destroy(lab, f, true) && other != lab
    requires Destroyable(ss[n].requests, lab, f) && Accepts(FrontOf(ss[n]), lab, f)
    ensures Forgotten(ss[n + 1].mem, lab) && ss[n + 1].disk == ss[n + 1].mem
    ensures lab !in ss[n].topology ==> Forgotten(RestartStep(ss[n + 1], true).mem, lab)
    ensures ss[n + 1].mem.table.highWater == ss[n].mem.table.highWater && ss[n + 1].leases == ss[n].leases
    ensures SameLab(ss[n].mem.records, ss[n + 1].mem.records, other)
    ensures forall x :: x in ss[n].mem.table.claims && ss[n].mem.table.claims[x].lab != lab ==>
              x in ss[n + 1].mem.table.claims && ss[n + 1].mem.table.claims[x] == ss[n].mem.table.claims[x]
  {
    assert StepAt(ss, es, n);
  }

  // ---------- saving and reading back ----------

  /** What a restart would find in the journal now. */
  function ReadBack(s: State): Journal { RestartStep(s, true).mem }

  /**
   A saved state survives a restart: the open transactions, inventories, lineage
   and live claims read back are those in memory, and every mark. A failed save
   leaves what a restart reads as it was.
   */
  lemma SaveIsReadBack(s: State, ok: bool)
    ensures var s' := Step(s, SaveAll(ok));
            && (!ok ==> ReadBack(s') == ReadBack(s))
            && (ok ==>
                  && ReadBack(s').records.transactions == s.mem.records.transactions
                  && ReadBack(s').records.inventories == s.mem.records.inventories
                  && ReadBack(s').records.lineage == s.mem.records.lineage
                  && (forall lab :: HighWater(ReadBack(s').table, lab) == HighWater(s.mem.table, lab))
                  && (forall x :: x in s.mem.table.claims && s.mem.table.claims[x].live ==>
                        x in ReadBack(s').table.claims && ReadBack(s').table.claims[x] == s.mem.table.claims[x])
                  && (forall x :: x in ReadBack(s').table.claims ==>
                        x in s.mem.table.claims && ReadBack(s').table.claims[x] == s.mem.table.claims[x]))
  {}

  /**
   What a new process holds: no leases, collections or requests; what the journal
   says if it can be read, without lapsed reservations; and for every lab with a
   topology file the generation of that file as the committed one.
   */
  lemma RestartReads(s: State, readable: bool, lab: Lab)
    ensures var s' := RestartStep(s, readable);
            var j := if readable then s.disk else EMPTY_JOURNAL;
            && s'.leases == map[] && s'.collecting == {} && s'.requests == NO_REQUESTS
            && s'.disk == s.disk && s'.topology == s.topology && s'.now == s.now
            && s'.mem.records.transactions == j.records.transactions
            && s'.mem.records.inventories == j.records.inventories && s'.mem.records.lineage == j.records.lineage
            && (forall x :: x in s'.mem.table.claims <==>
                  && x in j.table.claims
                  && (j.table.claims[x].live || j.table.claims[x].until == 0 || s.now < j.table.claims[x].until))
            && (forall x :: x in s'.mem.table.claims ==> s'.mem.table.claims[x] == j.table.claims[x])
            && HighWater(s'.mem.table, lab) == HighWater(j.table, lab)
            && GenerationOf(s'.mem.records, lab).prepared == GenerationOf(j.records, lab).prepared
            && GenerationOf(s'.mem.records, lab).ancestors == GenerationOf(j.records, lab).ancestors
            && GenerationOf(s'.mem.records, lab).committed ==
               if lab in s.topology then s.topology[lab].generation else GenerationOf(j.records, lab).committed
  {}
}
