/**
 Solve transitions: the reference solution is written only after the containers
 a prune would remove were preserved, and the prune of a commit removes exactly
 what that record preserved. The requests involved check and write in separate
 steps; what can come between them is part of the runs.
 */
module SolveTransition {
  import opened Common
  import opened CoordinationState
  import opened RecordSteps
  import opened RequestSteps
  import opened CoordinationRun
  import opened Operations
  import opened Transactions
  import opened Deployments

  // ---------- what a prune may remove ----------

  datatype Refusal =
    | NotPreserved | NotAskedToPrune | OtherLabOrNode | EarlierAttempt | OtherMode | OtherTopology

  datatype Entitlement =
    | ReadFirst
    | Entitled(preserved: seq<string>)
    | Refused(why: Refusal)

  /** What the prune of a transaction may remove from `lab` on `node`. */
  function PruneEntitlement(tx: Transaction, lab: Lab, topologyHash: string, node: string, desired: Mode):
    Entitlement
  {
    if !PreservationRequired(tx.plan.(mode := desired)) then ReadFirst
    else
      match tx.solve
      case None => Refused(NotPreserved)
      case Some(r) =>
        if !r.prune then Refused(NotAskedToPrune)
        else if r.lab != lab || r.node != node then Refused(OtherLabOrNode)
        else if r.generation != tx.generation || r.fence != tx.fence then Refused(EarlierAttempt)
        else if r.mode != tx.plan.mode || r.ungraded != tx.plan.ungraded then Refused(OtherMode)
        else if r.topologyHash != topologyHash then Refused(OtherTopology)
        else Entitled(r.preserved)
  }

  // ---------- what can come between check and write ----------

  predicate IsRefence(e: Event, lab: Lab) { IsRecord(e, lab) && e.record.Refence? }

  predicate RecordsSolve(s: State, e: Event, lab: Lab) {
    Happens(s, e, lab) && e.record.Advance? && e.record.update.RecordSolve?
  }

  /** The record was made for a transaction that was closed and prepared anew since. */
  predicate RecordsStale(s: State, e: Event, lab: Lab) {
    && RecordsSolve(s, e, lab)
    && forall id | id in s.requests.prepares ::
         Builds(s.requests.prepares[id], lab, e.fence, e.record.generation, e.record.update.record) ==>
           s.requests.prepares[id].stale
  }

  predicate MarksApplying(s: State, e: Event, lab: Lab) {
    Happens(s, e, lab) && e.record.Advance? && e.record.update.MarkApplying?
  }

  /** The request that marks the transaction was not sure of it when it checked it. */
  predicate MarksUnsure(s: State, e: Event, lab: Lab) {
    MarksApplying(s, e, lab) && !s.requests.ops[lab].safe
  }

  /** Which of these have happened to a lab. */
  datatype Past = Past(refenced: bool, stale: bool, unsure: bool)

  function Next(past: Past, s: State, e: Event, lab: Lab): Past {
    Past(past.refenced || IsRefence(e, lab), past.stale || RecordsStale(s, e, lab),
         past.unsure || MarksUnsure(s, e, lab))
  }

  ghost function PastOf(ss: seq<State>, es: seq<Event>, n: nat, lab: Lab): Past
    requires |ss| == |es| + 1 && n < |ss|
  {
    if n == 0 then Past(false, false, false) else Next(PastOf(ss, es, n - 1, lab), ss[n - 1], es[n - 1], lab)
  }

  // ---------- requests and the transactions they read ----------

  /** What a prepare request read is the open transaction, unless it is stale. */
  predicate ReadFits(s: State, id: nat) {
    id in s.requests.prepares && !s.requests.prepares[id].stale ==>
      var read := s.requests.prepares[id];
      read.lab in s.mem.records.transactions ==>
        && s.mem.records.transactions[read.lab].generation == read.tx.generation
        && s.mem.records.transactions[read.lab].plan == read.tx.plan
  }

  ghost predicate ReadsFit(s: State) {
    forall id: nat :: ReadFits(s, id)
  }

  /** An open transaction of a lab kept generation and plan, or is new and of the lab written. */
  predicate PlanKept(r: Records, r': Records, target: Lab, lab: Lab) {
    lab in r'.transactions ==>
      if lab in r.transactions then
        && r'.transactions[lab].generation == r.transactions[lab].generation
        && r'.transactions[lab].plan == r.transactions[lab].plan
      else lab == target
  }

  lemma WriteKeepsPlan(r: Records, target: Lab, accepted: bool, g: nat, e: RecordEvent, ok: bool, lab: Lab)
    ensures PlanKept(r, RecordStep(r, target, accepted, g, e, ok).records, target, lab)
  {
    if lab != target {
      OtherLabsUntouched(r, target, accepted, g, e, ok, lab);
    }
  }

  /** Only a prepare opens a transaction. */
  lemma OnlyPrepareOpens(r: Records, lab: Lab, accepted: bool, g: nat, e: RecordEvent, ok: bool)
    requires !e.Prepare? && lab !in r.transactions
    ensures lab !in RecordStep(r, lab, accepted, g, e, ok).records.transactions
  {}

  lemma WriteKeepsRead(s: State, s': State, target: Lab, id: nat)
    requires ReadFits(s, id) && id in s.requests.prepares
    requires PlanKept(s.mem.records, s'.mem.records, target, s.requests.prepares[id].lab)
    requires s'.requests.prepares ==
             if target !in s.mem.records.transactions && target in s'.mem.records.transactions
             then Staled(s.requests.prepares, target) else s.requests.prepares
    ensures ReadFits(s', id)
  {}

  lemma RecordsKeepRead(s: State, e: Event, s': State, id: nat)
    requires ReadFits(s, id) && id in s.requests.prepares && e.OnRecords?
    requires s'.mem.records == RecordsAfter(s, e)
    requires s'.requests.prepares ==
             if e.record.Prepare? && e.lab !in s.mem.records.transactions && e.lab in s'.mem.records.transactions
             then Staled(s.requests.prepares, e.lab) else s.requests.prepares
    ensures ReadFits(s', id)
  {
    WriteKeepsPlan(s.mem.records, e.lab, AcceptedAt(s, e), e.fence.generation, e.record, e.ok,
                   s.requests.prepares[id].lab);
    if !e.record.Prepare? && e.lab !in s.mem.records.transactions {
      OnlyPrepareOpens(s.mem.records, e.lab, AcceptedAt(s, e), e.fence.generation, e.record, e.ok);
    }
    WriteKeepsRead(s, s', e.lab, id);
  }

  lemma RequestsKeepRead(s: State, e: RequestEvent, id: nat)
    requires ReadFits(s, id)
    ensures ReadFits(Step(s, OnRequests(e)), id)
  {}

  lemma OthersKeepRead(s: State, e: Event, id: nat)
    requires ReadFits(s, id) && !e.OnRecords?
    ensures ReadFits(Step(s, e), id)
  {
    if e.OnRequests? {
      RequestsKeepRead(s, e.request, id);
    }
  }

  lemma {:induction false} RunKeepsReads(ss: seq<State>, es: seq<Event>, n: nat, id: nat)
    requires IsRun(ss, es) && n < |ss|
    ensures ReadFits(ss[n], id)
  {
    if n > 0 {
      assert StepAt(ss, es, n - 1);
      RunKeepsReads(ss, es, n - 1, id);
      var s, e := ss[n - 1], es[n - 1];
      if !e.OnRecords? {
        OthersKeepRead(s, e, id);
      } else if Reachable(s.requests, e.lab, e.fence, e.record) {
        RecordFrame(s, e);
        if id in s.requests.prepares { RecordsKeepRead(s, e, ss[n], id); }
      }
    }
  }

  /** No transaction of the lab is refused, and none that will be follows. */
  predicate Unrefused(s: State, lab: Lab) {
    && (lab in s.mem.records.transactions ==> !ApplyRefused(s.mem.records.transactions[lab]))
    && SafeToApply(s, lab)
  }

  /** While an apply request that was sure at its check runs, it stays so. */
  predicate SectionHolds(s: State, lab: Lab) {
    lab in s.requests.ops && s.requests.ops[lab].ApplyOp? && s.requests.ops[lab].safe ==> Unrefused(s, lab)
  }

  /** The steps another request can make while an apply request holds the lease. */
  predicate IsApart(e: RecordEvent) { !e.Commit? && !e.Recover? && !e.Refence? && !e.StartRecovery? }

  /** They keep an uncommitted transaction checked, and open none over another than the reference. */
  lemma RecordKeepsChecked(r: Records, lab: Lab, accepted: bool, g: nat, e: RecordEvent, ok: bool)
    requires IsApart(e) && (lab in r.transactions ==> !ApplyRefused(r.transactions[lab]))
    requires e.Prepare? ==> (lab in r.transactions && !r.transactions[lab].committed) || PreviousMode(e.plan) == Solve
    ensures var r' := RecordStep(r, lab, accepted, g, e, ok).records;
            && (lab in r'.transactions ==> !ApplyRefused(r'.transactions[lab]))
            && (lab in r.transactions && !r.transactions[lab].committed ==>
                  lab in r'.transactions && !r'.transactions[lab].committed)
  {}

  lemma RecordsKeepSection(s: State, e: Event, s': State, lab: Lab)
    requires Unrefused(s, lab) && e.OnRecords? && Reachable(s.requests, e.lab, e.fence, e.record)
    requires lab in s.requests.ops && s.requests.ops[lab].ApplyOp?
    requires s'.mem.records == RecordsAfter(s, e) && s'.topology == s.topology
    requires s'.requests.files == s.requests.files
    ensures Unrefused(s', lab)
  {
    if lab != e.lab {
      OtherLabsUntouched(s.mem.records, e.lab, AcceptedAt(s, e), e.fence.generation, e.record, e.ok, lab);
    } else {
      RecordKeepsChecked(s.mem.records, lab, AcceptedAt(s, e), e.fence.generation, e.record, e.ok);
    }
  }

  lemma RequestsKeepSection(s: State, e: RequestEvent, lab: Lab)
    requires Unrefused(s, lab)
    ensures Unrefused(s.(requests := RequestStep(s, e)), lab)
  {
    var q := RequestStep(s, e);
    assert q.files == s.requests.files || (e.ReadStored? && q.files == s.requests.files[e.id :=
      FileRead(e.lab, Stored(s.topology, e.lab))]);
  }

  /** Nobody else writes the topology file or destroys the lab meanwhile. */
  lemma OthersKeepSection(s: State, e: Event, lab: Lab)
    requires Unrefused(s, lab) && !e.OnRecords? && !e.OnRequests? && !e.Restart?
    requires lab in s.requests.ops && s.requests.ops[lab].ApplyOp?
    ensures Unrefused(Step(s, e), lab)
  {
    var s' := Step(s, e);
    assert s'.requests.files == s.requests.files && Stored(s'.topology, lab) == Stored(s.topology, lab);
    assert s'.mem.records == s.mem.records || (e.Destroy? && e.lab != lab);
  }

  lemma {:induction false} RunKeepsSections(ss: seq<State>, es: seq<Event>, n: nat, lab: Lab)
    requires IsRun(ss, es) && n < |ss|
    ensures SectionHolds(ss[n], lab)
  {
    if n > 0 {
      assert StepAt(ss, es, n - 1);
      RunKeepsSections(ss, es, n - 1, lab);
      StepMovesOp(ss[n - 1], es[n - 1], lab);
      StepKeepsSection(ss[n - 1], es[n - 1], ss[n], lab);
    }
  }

  lemma StepKeepsSection(s: State, e: Event, s': State, lab: Lab)
    requires SectionHolds(s, lab) && s' == Step(s, e) && OpMove(s, e, s', lab)
    ensures SectionHolds(s', lab)
  {
    if lab in s'.requests.ops && s'.requests.ops[lab].ApplyOp? && s'.requests.ops[lab].safe {
      if lab !in s.requests.ops {
        assert Begins(s, e, lab, s'.requests.ops[lab]);
      } else if e.OnRequests? {
        RequestsKeepSection(s, e.request, lab);
      } else if !e.OnRecords? {
        OthersKeepSection(s, e, lab);
      } else if Reachable(s.requests, e.lab, e.fence, e.record) {
        RecordFrame(s, e);
        RecordsKeepSection(s, e, s', lab);
      }
    }
  }

  // ---------- the record of a transaction ----------

  /** The record was made for this transaction, whichever fence made it. */
  predicate RecordFits(lab: Lab, tx: Transaction) {
    tx.solve.Some? ==>
      && tx.solve.value.lab == lab
      && tx.solve.value.generation == tx.generation
      && tx.solve.value.mode == tx.plan.mode
      && tx.solve.value.ungraded == tx.plan.ungraded
      && tx.solve.value.prune == tx.plan.prune
  }

  predicate RecordOfItsFence(tx: Transaction) {
    tx.solve.Some? ==> tx.solve.value.fence == tx.fence
  }

  predicate AppliesWithRecord(tx: Transaction) {
    tx.phase == Phase.Applying ==> !ApplyRefused(tx)
  }

  predicate TransactionFits(lab: Lab, tx: Transaction, past: Past) {
    && (past.stale || RecordFits(lab, tx))
    && (past.refenced || RecordOfItsFence(tx))
    && (past.refenced || past.unsure || AppliesWithRecord(tx))
  }

  predicate SolveFits(r: Records, lab: Lab, past: Past) {
    lab in r.transactions ==> TransactionFits(lab, r.transactions[lab], past)
  }

  ghost predicate SolveInv(s: State, lab: Lab, past: Past) {
    SolveFits(s.mem.records, lab, past) && SolveFits(s.disk.records, lab, past)
  }

  lemma UpdateKeepsFit(lab: Lab, tx: Transaction, u: Update, past: Past, past': Past)
    requires TransactionFits(lab, tx, past)
    requires past.stale ==> past'.stale
    requires past.refenced ==> past'.refenced
    requires past.unsure ==> past'.unsure
    requires u.MarkApplying? && !past'.unsure ==> !ApplyRefused(tx)
    requires u.RecordSolve? ==> u.record.fence == tx.fence
    requires u.RecordSolve? && !past'.stale ==> RecordFits(lab, tx.(solve := Some(u.record)))
    ensures TransactionFits(lab, Updated(tx, u), past')
  {}

  lemma AdvanceKeepsSolve(s: State, e: Event, lab: Lab, past: Past)
    requires Happens(s, e, lab) && e.record.Advance? && SolveInv(s, lab, past)
    requires SectionHolds(s, lab) && ReadsFit(s)
    ensures SolveFits(AdvanceStep(s.mem.records, lab, AcceptedAt(s, e), e.fence.generation, e.record.generation,
                                  e.record.update, e.ok).records, lab, Next(past, s, e, lab))
  {
    if OwnsTransaction(s.mem.records, lab, AcceptedAt(s, e), e.fence.generation, e.record.generation) {
      if RecordsSolve(s, e, lab) && !RecordsStale(s, e, lab) {
        // The record was made of a read that still is the open transaction.
        var id :| id in s.requests.prepares && !s.requests.prepares[id].stale
          && Builds(s.requests.prepares[id], lab, e.fence, e.record.generation, e.record.update.record);
        assert ReadFits(s, id);
      }
      UpdateKeepsFit(lab, s.mem.records.transactions[lab], e.record.update, past, Next(past, s, e, lab));
    }
  }

  lemma OtherRecordKeepsSolve(r: Records, lab: Lab, accepted: bool, g: nat, e: RecordEvent, ok: bool, past: Past)
    requires !e.Advance? && SolveFits(r, lab, past)
    requires e.MarkPhase? ==> e.phase != Phase.Applying
    ensures SolveFits(RecordStep(r, lab, accepted, g, e, ok).records, lab,
                      past.(refenced := past.refenced || e.Refence?))
  {}

  lemma RecordKeepsSolve(s: State, e: Event, lab: Lab, past: Past)
    requires IsRecord(e, lab) && SolveInv(s, lab, past) && Allowed(s, e)
    requires SectionHolds(s, lab) && ReadsFit(s)
    ensures SolveInv(Step(s, e), lab, Next(past, s, e, lab))
  {
    if !Happens(s, e, lab) {
    } else if e.record.Advance? {
      AdvanceKeepsSolve(s, e, lab, past);
    } else {
      OtherRecordKeepsSolve(s.mem.records, lab, AcceptedAt(s, e), e.fence.generation, e.record, e.ok, past);
    }
  }

  lemma StepKeepsSolve(s: State, e: Event, lab: Lab, past: Past)
    requires SolveInv(s, lab, past) && Allowed(s, e) && Readable(e)
    requires SectionHolds(s, lab) && ReadsFit(s)
    ensures SolveInv(Step(s, e), lab, Next(past, s, e, lab))
  {
    if IsRecord(e, lab) {
      RecordKeepsSolve(s, e, lab, past);
    } else if e.OnRecords? {
      OtherLabsUntouched(s.mem.records, e.lab, AcceptedAt(s, e), e.fence.generation, e.record, e.ok, lab);
    }
  }

  /** The preservation record fits its transaction in every reachable state, but for its past. */
  lemma {:induction false} RunKeepsSolve(ss: seq<State>, es: seq<Event>, n: nat, lab: Lab)
    requires IsRun(ss, es) && Durable(es) && n < |ss|
    ensures SolveInv(ss[n], lab, PastOf(ss, es, n, lab))
  {
    if n > 0 {
      assert StepAt(ss, es, n - 1);
      RunKeepsSolve(ss, es, n - 1, lab);
      RunKeepsSections(ss, es, n - 1, lab);
      var s := ss[n - 1];
      forall id: nat ensures ReadFits(s, id) {
        RunKeepsReads(ss, es, n - 1, id);
      }
      StepKeepsSolve(ss[n - 1], es[n - 1], lab, PastOf(ss, es, n - 1, lab));
    }
  }

  // ---------- preservation precedes destruction ----------

  /** The apply request moves the transaction it owns into the apply phase. */
  predicate StartsApplying(s: State, e: Event, lab: Lab) {
    && MarksApplying(s, e, lab)
    && OwnsTransaction(s.mem.records, lab, AcceptedAt(s, e), e.fence.generation, e.record.generation)
  }

  /**
   A pruning transition to solve enters the apply phase with a preservation
   record, although check and mark are separate steps, when the request was sure
   at its check: what it checked was uncommitted, or the lab was at the
   reference. The record is of the same lab, generation, mode and request unless
   it was made for an earlier transaction, and of the same fence unless forward
   recovery re-fenced the lab.
   */
  lemma {:induction false} PreservedBeforeApply(ss: seq<State>, es: seq<Event>, b: nat, k: nat, lab: Lab)
    requires IsRun(ss, es) && Durable(es) && b < k < |es| && StartsApplying(ss[k], es[k], lab)
    requires Begins(ss[b], es[b], lab, ss[k].requests.ops[lab]) && SafeToApply(ss[b], lab)
    requires PreservationRequired(ss[k].mem.records.transactions[lab].plan)
    ensures var tx := ss[k].mem.records.transactions[lab];
            var past := PastOf(ss, es, k, lab);
            && tx.solve.Some?
            && (past.stale || (RecordFits(lab, tx) && tx.solve.value.prune))
            && (past.refenced || tx.solve.value.fence == es[k].fence.generation)
  {
    RunKeepsSolve(ss, es, k, lab);
    RunKeepsSections(ss, es, k, lab);
  }

  /** A pruning plan for a lab whose topology file was this one. */
  function PruningPlan(stored: Option<TopologyFile>, ungraded: nat): Plan {
    Plan(stored, Solve, ungraded, true, false, [], Inventory("", []))
  }

  /** A prepare request has read a topology file that is not at the reference, or found none. */
  predicate HasRead(s: State, lab: Lab, stored: Option<TopologyFile>) {
    && (stored.Some? ==> stored.value.mode != Solve)
    && exists id :: id in s.requests.files && s.requests.files[id] == FileRead(lab, stored)
  }

  /** When the lab is not at the reference, some request has read that or can read it now. */
  lemma NotAtReference(s: State, lab: Lab, id: nat) returns (stored: Option<TopologyFile>)
    requires !AtReference(s, lab)
    ensures HasRead(s, lab, stored) || HasRead(Step(s, OnRequests(ReadStored(id, lab))), lab, stored)
  {
    if lab in s.topology && s.topology[lab].mode == Solve {
      var i :| i in s.requests.files && s.requests.files[i].lab == lab
        && !(s.requests.files[i].file.Some? && s.requests.files[i].file.value.mode == Solve);
      stored := s.requests.files[i].file;
      assert s.requests.files[i] == FileRead(lab, stored);
    } else {
      stored := Stored(s.topology, lab);
      assert Step(s, OnRequests(ReadStored(id, lab))).requests.files[id] == FileRead(lab, stored);
    }
  }

  /** The same fence finalizes, prepares the generation again with a prune, and the running request marks it. */
  function BreakingEvents(lab: Lab, f: Fence, committed: Generation, generation: Generation,
                          stored: Option<TopologyFile>): seq<Event>
  {
    [OnRecords(lab, f, Finalize(generation), true),
     OnRecords(lab, f, Prepare(committed, generation, PruningPlan(stored, 0)), true),
     OnRecords(lab, f, Advance(generation, MarkApplying), true)]
  }

  /**
   When the request was not sure, the guarantee is lost: from every state in
   which the transaction it checked is committed and a prepare has read a
   topology file other than the reference, three steps of the same fence lead to
   an apply phase with no record.
   */
  lemma UnsureCheckCanBreak(s: State, lab: Lab, f: Fence, stored: Option<TopologyFile>, s1: State, s2: State)
    requires TxInv(s, lab) && lab in s.requests.ops && s.requests.ops[lab].ApplyOp? && s.requests.ops[lab].fence == f
    requires OwnsTransaction(s.mem.records, lab, Accepts(FrontOf(s), lab, f), f.generation,
                             s.requests.ops[lab].read.generation)
    requires s.mem.records.transactions[lab].committed && HasRead(s, lab, stored)
    requires var es := BreakingEvents(lab, f, GenerationOf(s.mem.records, lab).committed,
                                      s.requests.ops[lab].read.generation, stored);
             s1 == Step(s, es[0]) && s2 == Step(s1, es[1])
    ensures var es := BreakingEvents(lab, f, GenerationOf(s.mem.records, lab).committed,
                                     s.requests.ops[lab].read.generation, stored);
            Allowed(s, es[0]) && Allowed(s1, es[1]) && Allowed(s2, es[2]) && StartsApplying(s2, es[2], lab)
    ensures PreservationRequired(s2.mem.records.transactions[lab].plan)
    ensures s2.mem.records.transactions[lab].solve.None?
  {
    var committed, generation := GenerationOf(s.mem.records, lab).committed, s.requests.ops[lab].read.generation;
    FinalizeFrees(s, lab, f, generation, committed);
    assert HasRead(s1, lab, stored);
    PrepareOpens(s1, lab, f, committed, generation, PruningPlan(stored, 0));
  }

  // ---------- the entitlement of a prune ----------

  /** Whether the record speaks for this node, this manifest and this attempt. */
  predicate RecordApplies(tx: Transaction, topologyHash: string, node: string) {
    && tx.solve.Some?
    && tx.solve.value.node == node
    && tx.solve.value.topologyHash == topologyHash
    && tx.solve.value.fence == tx.fence
  }

  /**
   In every reachable state a granted prune covers exactly the preserved set of
   a record that fits the transaction and speaks for the node, the manifest and
   the attempt; and every such record is granted unless a stale record was
   written. A refusal for another mode or request, or for an earlier attempt,
   is met only after a stale record, or after a re-fence for the latter.
   */
  lemma {:induction false} PruneGrantedExactlyWhen(ss: seq<State>, es: seq<Event>, n: nat, lab: Lab,
                                                   topologyHash: string, node: string)
    requires IsRun(ss, es) && Durable(es) && n < |ss| && lab in ss[n].mem.records.transactions
    requires PreservationRequired(ss[n].mem.records.transactions[lab].plan)
    ensures var tx := ss[n].mem.records.transactions[lab];
            var past := PastOf(ss, es, n, lab);
            var answer := PruneEntitlement(tx, lab, topologyHash, node, tx.plan.mode);
            && (answer.Entitled? ==>
                  && RecordApplies(tx, topologyHash, node) && RecordFits(lab, tx)
                  && answer.preserved == tx.solve.value.preserved)
            && (RecordApplies(tx, topologyHash, node) ==> answer.Entitled? || past.stale)
            && (answer.Refused? && answer.why in {NotAskedToPrune, OtherMode} ==> past.stale)
            && (answer == Refused(EarlierAttempt) ==> past.stale || past.refenced)
            && answer != ReadFirst
  {
    RunKeepsSolve(ss, es, n, lab);
  }

  /**
   Once the apply phase of such a transition began, and nothing came between
   check and write, the prune is refused only for another node or manifest.
   */
  lemma {:induction false} AppliedTransitionCanPrune(ss: seq<State>, es: seq<Event>, n: nat, lab: Lab,
                                                     topologyHash: string, node: string)
    requires IsRun(ss, es) && Durable(es) && n < |ss| && lab in ss[n].mem.records.transactions
    requires PastOf(ss, es, n, lab) == Past(false, false, false)
    requires var tx := ss[n].mem.records.transactions[lab];
             PreservationRequired(tx.plan) && tx.phase == Phase.Applying
    ensures var tx := ss[n].mem.records.transactions[lab];
            && tx.solve.Some?
            && PruneEntitlement(tx, lab, topologyHash, node, tx.plan.mode) ==
               if tx.solve.value.node != node then Refused(OtherLabOrNode)
               else if tx.solve.value.topologyHash != topologyHash then Refused(OtherTopology)
               else Entitled(tx.solve.value.preserved)
  {
    RunKeepsSolve(ss, es, n, lab);
  }

  /**
   Forward recovery keeps the record and changes the fence, so from any state
   the prune it commits is granted only to a record of the new fence; without
   a record the transaction is being applied all the same.
   */
  lemma RefenceLosesEntitlement(r: Records, lab: Lab, g: nat, generation: Generation, ok: bool,
                                topologyHash: string, node: string)
    requires HasTransaction(r, lab, true, generation) && RecordFits(lab, r.transactions[lab])
    requires PreservationRequired(r.transactions[lab].plan)
    ensures var tx := RefenceStep(r, lab, g, generation, ok).records.transactions[lab];
            var answer := PruneEntitlement(tx, lab, topologyHash, node, tx.plan.mode);
            && tx.solve == r.transactions[lab].solve
            && (answer.Entitled? <==> RecordApplies(tx, topologyHash, node))
            && (tx.solve.Some? && tx.solve.value.fence != g ==> answer.Refused?)
            && (tx.solve.None? ==> answer == Refused(NotPreserved) && tx.phase == Phase.Applying)
  {}
}
