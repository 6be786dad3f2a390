/**
 Memory, journal and topology file agree on a lab as long as its requests find
 what they read before they took the operation lease.
 */
module Agreement {
  import opened Common
  import opened CoordinationState
  import opened TableSteps
  import opened RecordSteps
  import opened RequestSteps
  import opened CoordinationRun
  import opened Operations
  import opened Fencing
  import opened Transactions

  // ---------- what agrees ----------

  /** A topology file of this generation fits the records of a lab. */
  predicate FileFits(r: Records, lab: Lab, generation: Generation) {
    if lab in r.transactions then
      var tx := r.transactions[lab];
      generation == tx.generation || (!tx.committed && generation == tx.previous)
    else generation == GenerationOf(r, lab).committed
  }

  /** The committed generation is the one the transaction replaces or its own. */
  predicate CommittedFits(r: Records, lab: Lab) {
    lab in r.transactions ==>
      var committed, tx := GenerationOf(r, lab).committed, r.transactions[lab];
      committed == tx.generation || (!tx.committed && committed == tx.previous)
  }

  /** The file a rollback of this transaction restores is that of the generation it replaced. */
  predicate StoredFits(tx: Transaction) {
    tx.plan.stored.Some? ==> tx.plan.stored.value.generation == tx.previous
  }

  predicate Agree(m: Records, d: Records, file: Option<TopologyFile>, lab: Lab) {
    && CommittedFits(m, lab) && CommittedFits(d, lab)
    && (lab in m.transactions && lab in d.transactions ==>
          m.transactions[lab].committed == d.transactions[lab].committed && StoredFits(m.transactions[lab]))
    && (lab !in m.transactions ==> GenerationOf(m, lab).committed == GenerationOf(d, lab).committed)
    && (file.Some? ==> FileFits(m, lab, file.value.generation))
  }

  predicate Agrees(s: State, lab: Lab) {
    Agree(s.mem.records, s.disk.records, Stored(s.topology, lab), lab)
  }

  // ---------- requests in order ----------

  /** What a commit request writes fits, and it does not commit what is committed already. */
  predicate CommitInTime(s: State, read: CommitRead) {
    var txs := s.mem.records.transactions;
    && FileFits(s.mem.records, read.lab, read.tx.generation)
    && !(&& read.lab in txs && txs[read.lab].committed
         && txs[read.lab].generation == read.tx.generation && txs[read.lab].fence == read.fence.generation
         && Accepts(FrontOf(s), read.lab, read.fence))
  }

  /** The transaction is still uncommitted, or a rollback of it leads back to the same generation. */
  predicate RecoveryInTime(tx: Transaction, forward: bool) {
    !tx.committed || (!forward && tx.previous == tx.generation)
  }

  /** The topology file a prepare request read is of the generation it compares against. */
  predicate PrepareInTime(expected: Generation, plan: Plan) {
    plan.stored.Some? ==> plan.stored.value.generation == expected
  }

  /**
   The step does not act on a reading that is out of date: a commit request that
   takes the lease, a recovery that starts, a prepare that succeeds; and a lab
   is not destroyed while its topology file is left.
   */
  predicate InOrder(s: State, e: Event, lab: Lab) {
    var txs := s.mem.records.transactions;
    && (e.OnRequests? && e.request.BeginCommit? && TakesCommit(s.requests, e.request.id)
        && s.requests.commits[e.request.id].lab == lab ==>
          CommitInTime(s, s.requests.commits[e.request.id]))
    && (Happens(s, e, lab) && e.record.StartRecovery? && e.ok
        && HasTransaction(s.mem.records, lab, AcceptedAt(s, e), e.record.generation) ==>
          RecoveryInTime(txs[lab], e.record.forward))
    && (Happens(s, e, lab) && e.record.Prepare? && e.ok
        && CanPrepare(s.mem.records, lab, AcceptedAt(s, e), e.record.expected, e.record.generation) ==>
          PrepareInTime(e.record.expected, e.record.plan))
    && (e.Destroy? && e.lab == lab && Destroyable(s.requests, lab, e.fence) && AcceptedAt(s, e) && e.ok ==>
          lab !in s.topology || s.topology[lab].generation == "")
  }

  /** The first `n` steps of a run act on current readings of the lab. */
  ghost predicate Orderly(ss: seq<State>, es: seq<Event>, n: nat, lab: Lab)
    requires |ss| == |es| + 1 && n < |ss|
  {
    forall i | 0 <= i < n :: InOrder(ss[i], es[i], lab)
  }

  // ---------- the request that holds the lease ----------

  /** The generation whose topology file the request leaves. */
  function TargetGeneration(op: Operation): Generation
    requires !op.ApplyOp? && !op.DestroyOp?
  {
    if op.RollbackOp? then op.read.previous else op.read.generation
  }

  /** The open transaction is one the request may finish. */
  predicate Finishes(op: Operation, tx: Transaction, retired: bool)
    requires !op.ApplyOp? && !op.DestroyOp?
  {
    if op.RollbackOp? then tx.previous == op.read.previous && RecoveryInTime(tx, false)
    else if op.ForwardOp? then !tx.committed
    else tx.committed && tx.fence == op.fence.generation ==> retired
  }

  /** What holds of a request between taking the lease and recording its result. */
  predicate OpFits(r: Records, file: Option<TopologyFile>, op: Operation, lab: Lab, retired: bool) {
    !op.ApplyOp? && op.stage != Done ==>
      && (op.stage == Written ==> file == Target(op))
      && (!op.DestroyOp? ==>
            && FileFits(r, lab, TargetGeneration(op))
            && (op.RollbackOp? ==> StoredFits(op.read))
            && (lab in r.transactions && r.transactions[lab].generation == op.read.generation ==>
                  Finishes(op, r.transactions[lab], retired)))
  }

  ghost predicate OpInv(s: State, lab: Lab) {
    lab in s.requests.ops ==>
      OpFits(s.mem.records, Stored(s.topology, lab), s.requests.ops[lab], lab,
             Retired(s, lab, s.requests.ops[lab].fence.generation))
  }

  ghost predicate LabInv(s: State, lab: Lab) { TxInv(s, lab) && Agrees(s, lab) && OpInv(s, lab) }

  // ---------- record steps ----------

  /** Steps that need no lease, and the re-fence, which changes neither generation nor flags. */
  predicate IsFree(e: RecordEvent) { !e.Commit? && !e.Recover? }

  /** Such a step leaves every file fitting that fitted before. */
  lemma FreeKeepsFile(r: Records, lab: Lab, accepted: bool, g: nat, e: RecordEvent, ok: bool, target: Generation)
    requires IsFree(e) && FileFits(r, lab, target) && CommittedFits(r, lab)
    ensures FileFits(RecordStep(r, lab, accepted, g, e, ok).records, lab, target)
  {}

  /** What such a step leaves of the committed generation and the flags. */
  predicate RecordsAgree(m: Records, d: Records, lab: Lab) { Agree(m, d, None, lab) }

  lemma PrepareKeepsAgreement(m: Records, d: Records, marks: Table, lab: Lab, accepted: bool, g: nat,
                              expected: Generation, generation: Generation, plan: Plan, ok: bool)
    requires RecordsAgree(m, d, lab) && BothFit(m, d, marks, lab)
    requires ok && CanPrepare(m, lab, accepted, expected, generation) ==> PrepareInTime(expected, plan)
    ensures var w := PrepareStep(m, lab, accepted, g, expected, generation, plan, ok);
            RecordsAgree(w.records, DiskRecords(d, w), lab)
  {}

  lemma OpeningKeepsAgreement(m: Records, d: Records, marks: Table, lab: Lab, accepted: bool, g: nat, e: RecordEvent,
                              ok: bool)
    requires e.Advance? || e.MarkPhase? || e.StartRecovery?
    requires RecordsAgree(m, d, lab) && BothFit(m, d, marks, lab)
    ensures var w := RecordStep(m, lab, accepted, g, e, ok);
            RecordsAgree(w.records, DiskRecords(d, w), lab)
  {}

  lemma ClosingKeepsAgreement(m: Records, d: Records, marks: Table, lab: Lab, accepted: bool, g: nat, e: RecordEvent,
                              ok: bool)
    requires e.Finalize? || e.Reopen? || e.Refence? || e.Absorb?
    requires RecordsAgree(m, d, lab) && BothFit(m, d, marks, lab)
    ensures var w := RecordStep(m, lab, accepted, g, e, ok);
            RecordsAgree(w.records, DiskRecords(d, w), lab)
  {}

  lemma FreeKeepsAgreement(m: Records, d: Records, file: Option<TopologyFile>, marks: Table, lab: Lab,
                           accepted: bool, g: nat, e: RecordEvent, ok: bool)
    requires IsFree(e) && Agree(m, d, file, lab) && BothFit(m, d, marks, lab)
    requires e.Prepare? && ok && CanPrepare(m, lab, accepted, e.expected, e.generation) ==>
               PrepareInTime(e.expected, e.plan)
    ensures var w := RecordStep(m, lab, accepted, g, e, ok);
            Agree(w.records, DiskRecords(d, w), file, lab)
  {
    if e.Prepare? {
      PrepareKeepsAgreement(m, d, marks, lab, accepted, g, e.expected, e.generation, e.plan, ok);
    } else if e.Advance? || e.MarkPhase? || e.StartRecovery? {
      OpeningKeepsAgreement(m, d, marks, lab, accepted, g, e, ok);
    } else {
      ClosingKeepsAgreement(m, d, marks, lab, accepted, g, e, ok);
    }
    if file.Some? {
      FreeKeepsFile(m, lab, accepted, g, e, ok, file.value.generation);
    }
  }

  lemma CommitKeepsAgreement(m: Records, d: Records, file: Option<TopologyFile>, marks: Table, lab: Lab,
                             accepted: bool, g: nat, generation: Generation, inventory: Option<Inventory>, ok: bool)
    requires Agree(m, d, file, lab) && BothFit(m, d, marks, lab)
    requires file.Some? ==> file.value.generation == generation
    requires CanCommit(m, lab, accepted, g, generation) ==> !m.transactions[lab].committed
    ensures var w := CommitStep(m, lab, accepted, g, generation, inventory, ok);
            Agree(w.records, DiskRecords(d, w), file, lab)
  {}

  lemma RecoverKeepsAgreement(m: Records, d: Records, file: Option<TopologyFile>, marks: Table, lab: Lab,
                              accepted: bool, generation: Generation, ok: bool)
    requires Agree(m, d, file, lab) && BothFit(m, d, marks, lab)
    requires HasTransaction(m, lab, accepted, generation) ==>
               && RecoveryInTime(m.transactions[lab], false)
               && (file.Some? ==> file.value.generation == m.transactions[lab].previous)
    ensures var w := RecoverStep(m, lab, accepted, generation, ok);
            Agree(w.records, DiskRecords(d, w), file, lab)
  {}

  /** Every record step of a request in order keeps the agreement. */
  lemma RecordKeepsAgreement(s: State, e: Event, lab: Lab)
    requires LabInv(s, lab) && Happens(s, e, lab) && InOrder(s, e, lab)
    ensures var w := RecordStep(s.mem.records, lab, AcceptedAt(s, e), e.fence.generation, e.record, e.ok);
            Agree(w.records, DiskRecords(s.disk.records, w), Stored(s.topology, lab), lab)
  {
    var m, d, file, marks := s.mem.records, s.disk.records, Stored(s.topology, lab), s.disk.table;
    if IsFree(e.record) {
      FreeKeepsAgreement(m, d, file, marks, lab, AcceptedAt(s, e), e.fence.generation, e.record, e.ok);
    } else if e.record.Commit? {
      if AcceptedAt(s, e) && Retired(s, lab, e.fence.generation) { RetiredIsRefused(s, lab, e.fence); }
      CommitKeepsAgreement(m, d, file, marks, lab, AcceptedAt(s, e), e.fence.generation, e.record.generation,
                           e.record.inventory, e.ok);
    } else {
      RecoverKeepsAgreement(m, d, file, marks, lab, AcceptedAt(s, e), e.record.generation, e.ok);
    }
  }

  lemma FreeKeepsOp(r: Records, file: Option<TopologyFile>, op: Operation, lab: Lab, retired: bool, accepted: bool,
                    g: nat, e: RecordEvent, ok: bool)
    requires IsFree(e) && OpFits(r, file, op, lab, retired) && CommittedFits(r, lab) && !op.ApplyOp?
    requires e.Refence? ==> op.ForwardOp?
    ensures OpFits(RecordStep(r, lab, accepted, g, e, ok).records, file, op, lab, retired)
  {
    if op.stage != Done && !op.DestroyOp? {
      FreeKeepsFile(r, lab, accepted, g, e, ok, TargetGeneration(op));
    }
  }

  // ---------- every step ----------

  /** The records of another lab, or of this one saved or read back, agree as before. */
  lemma SameLabAgrees(m: Records, m': Records, d: Records, d': Records, file: Option<TopologyFile>, lab: Lab)
    requires Agree(m, d, file, lab) && SameLab(m, m', lab) && (SameLab(d, d', lab) || SameLab(m, d', lab))
    requires lab in m.transactions <==> lab in d.transactions
    ensures Agree(m', d', file, lab)
  {}

  lemma SameLabKeepsOp(m: Records, m': Records, file: Option<TopologyFile>, op: Operation, lab: Lab, retired: bool,
                       retired': bool)
    requires OpFits(m, file, op, lab, retired) && SameLab(m, m', lab) && (retired ==> retired')
    ensures OpFits(m', file, op, lab, retired')
  {}

  lemma RestartKeepsAgreement(s: State, lab: Lab)
    requires LabInv(s, lab)
    ensures Agrees(RestartStep(s, true), lab)
  {}

  lemma WrittenFits(m: Records, d: Records, file: Option<TopologyFile>, op: Operation, lab: Lab, retired: bool)
    requires Agree(m, d, file, lab) && OpFits(m, file, op, lab, retired) && !op.ApplyOp? && op.stage != Done
    ensures Agree(m, d, Target(op), lab) && OpFits(m, Target(op), op.(stage := Written), lab, retired)
  {}

  lemma WriteTopologyKeepsLab(s: State, lab0: Lab, lab: Lab)
    requires LabInv(s, lab)
    ensures Agrees(Step(s, WriteTopology(lab0)), lab) && OpInv(Step(s, WriteTopology(lab0)), lab)
  {
    var s' := Step(s, WriteTopology(lab0));
    if lab == lab0 && WritesTopology(s.requests, lab) {
      var op := s.requests.ops[lab];
      WrittenFits(s.mem.records, s.disk.records, Stored(s.topology, lab), op, lab,
                  Retired(s, lab, op.fence.generation));
      assert Stored(s'.topology, lab) == Target(op) && s'.requests.ops[lab] == op.(stage := Written);
    } else {
      assert Stored(s'.topology, lab) == Stored(s.topology, lab);
    }
  }

  /** A request that takes the lease in order fits. */
  lemma BegunFits(s: State, e: Event, lab: Lab, op: Operation)
    requires LabInv(s, lab) && InOrder(s, e, lab) && Begins(s, e, lab, op)
    requires op.CommitOp? ==> Accepts(FrontOf(s), lab, op.fence) || Retired(s, lab, op.fence.generation)
    ensures OpFits(s.mem.records, Stored(s.topology, lab), op, lab, Retired(s, lab, op.fence.generation))
  {}

  /** The fence of a commit request that waits for the lease is accepted or can never be again. */
  lemma {:induction false} WaitingCommitIsFenced(ss: seq<State>, es: seq<Event>, n: nat, id: nat)
    requires IsRun(ss, es) && Durable(es) && n < |ss| && id in ss[n].requests.commits
    ensures var read := ss[n].requests.commits[id];
            Accepts(FrontOf(ss[n]), read.lab, read.fence) || Retired(ss[n], read.lab, read.fence.generation)
  {
    if n > 0 {
      var read := ss[n].requests.commits[id];
      assert StepAt(ss, es, n - 1);
      RunMoves(ss, es, n - 1, read.lab);
      CommitReadMoves(ss[n - 1], es[n - 1], id);
      if id in ss[n - 1].requests.commits && ss[n - 1].requests.commits[id] == read {
        WaitingCommitIsFenced(ss, es, n - 1, id);
        if Retired(ss[n - 1], read.lab, read.fence.generation) {
          MoveKeepsRetired(ss[n - 1], ss[n], read.lab, read.fence.generation);
        }
      }
    }
  }

  lemma CommitReadMoves(s: State, e: Event, id: nat)
    requires id in Step(s, e).requests.commits
    ensures var read := Step(s, e).requests.commits[id];
            || (id in s.requests.commits && s.requests.commits[id] == read)
            || (e.OnRequests? && Accepts(FrontOf(s), read.lab, read.fence))
  {
    if e.OnRequests? {
      if e.request.ReadForCommit? || e.request.BeginCommit? {
      } else {
        assert RequestStep(s, e.request).commits == s.requests.commits;
      }
    } else {
      assert Step(s, e).requests.commits == s.requests.commits || e.Restart?;
    }
  }

  lemma RecordEventAgrees(s: State, e: Event, lab: Lab)
    requires LabInv(s, lab) && InOrder(s, e, lab) && e.OnRecords? && Reachable(s.requests, e.lab, e.fence, e.record)
    ensures Agrees(Step(s, e), lab)
  {
    var w := RecordStep(s.mem.records, e.lab, AcceptedAt(s, e), e.fence.generation, e.record, e.ok);
    if e.lab != lab {
      OtherLabsUntouched(s.mem.records, e.lab, AcceptedAt(s, e), e.fence.generation, e.record, e.ok, lab);
      SameLabAgrees(s.mem.records, w.records, s.disk.records, DiskRecords(s.disk.records, w),
                    Stored(s.topology, lab), lab);
    } else {
      RecordKeepsAgreement(s, e, lab);
    }
  }

  /** The request that holds the lease fits the records another step wrote. */
  lemma RecordKeepsOp(s: State, e: Event, lab: Lab)
    requires LabInv(s, lab) && e.OnRecords? && Reachable(s.requests, e.lab, e.fence, e.record)
    requires lab in s.requests.ops && !(e.lab == lab && !IsFree(e.record))
    ensures var w := RecordStep(s.mem.records, e.lab, AcceptedAt(s, e), e.fence.generation, e.record, e.ok);
            var op := s.requests.ops[lab];
            OpFits(w.records, Stored(s.topology, lab), op, lab, Retired(s, lab, op.fence.generation))
  {
    var op := s.requests.ops[lab];
    var retired := Retired(s, lab, op.fence.generation);
    if e.lab != lab {
      OtherLabsUntouched(s.mem.records, e.lab, AcceptedAt(s, e), e.fence.generation, e.record, e.ok, lab);
      var w := RecordStep(s.mem.records, e.lab, AcceptedAt(s, e), e.fence.generation, e.record, e.ok);
      SameLabKeepsOp(s.mem.records, w.records, Stored(s.topology, lab), op, lab, retired, retired);
    } else if !op.ApplyOp? {
      FreeKeepsOp(s.mem.records, Stored(s.topology, lab), op, lab, retired, AcceptedAt(s, e), e.fence.generation,
                  e.record, e.ok);
    }
  }

  /** The same after the step, with time and marks of the fence moved on. */
  lemma LaterOpFits(s: State, s': State, op: Operation, lab: Lab)
    requires OpFits(s'.mem.records, Stored(s'.topology, lab), op, lab, Retired(s, lab, op.fence.generation))
    requires FenceInv(s) && FenceMove(s, s', lab)
    ensures OpFits(s'.mem.records, Stored(s'.topology, lab), op, lab, Retired(s', lab, op.fence.generation))
  {
    if Retired(s, lab, op.fence.generation) {
      MoveKeepsRetired(s, s', lab, op.fence.generation);
    }
  }

  /** A recovery request that starts. */
  lemma StartedOpFits(s: State, e: Event, s': State, op: Operation, lab: Lab)
    requires LabInv(s, lab) && InOrder(s, e, lab) && e.OnRecords? && FenceInv(s) && FenceMove(s, s', lab)
    requires Begins(s, e, lab, op) && s'.mem.records == RecordsAfter(s, e) && s'.topology == s.topology
    ensures OpFits(s'.mem.records, Stored(s'.topology, lab), op, lab, Retired(s', lab, op.fence.generation))
  {
    BegunFits(s, e, lab, op);
    FreeKeepsOp(s.mem.records, Stored(s.topology, lab), op, lab, Retired(s, lab, op.fence.generation),
                AcceptedAt(s, e), e.fence.generation, e.record, e.ok);
    LaterOpFits(s, s', op, lab);
  }

  predicate IsDone(s: State, lab: Lab) {
    lab in s.requests.ops ==> !s.requests.ops[lab].ApplyOp? && s.requests.ops[lab].stage == Done
  }

  /** A request that records its commit or recovery is done. */
  lemma RecordedIsDone(s: State, e: Event)
    requires e.OnRecords? && Reachable(s.requests, e.lab, e.fence, e.record) && !IsFree(e.record)
    ensures IsDone(Step(s, e), e.lab)
  {}

  lemma RecordEventKeepsOpInv(s: State, e: Event, s': State, lab: Lab)
    requires LabInv(s, lab) && InOrder(s, e, lab) && e.OnRecords? && FenceInv(s)
    requires FenceMove(s, s', lab) && OpMove(s, e, s', lab)
    requires Reachable(s.requests, e.lab, e.fence, e.record)
    requires s'.mem.records == RecordsAfter(s, e) && s'.topology == s.topology
    requires e.lab == lab && !IsFree(e.record) ==> IsDone(s', lab)
    ensures OpInv(s', lab)
  {
    if lab in s'.requests.ops {
      var op := s'.requests.ops[lab];
      if lab !in s.requests.ops {
        StartedOpFits(s, e, s', op, lab);
      } else if !(e.lab == lab && !IsFree(e.record)) {
        RecordKeepsOp(s, e, lab);
        LaterOpFits(s, s', op, lab);
      }
    }
  }

  /** Steps that leave the records in memory and the topology files alone. */
  predicate IsQuiet(e: Event) { e.Tick? || e.SaveAll? || e.OnTable? || e.OnRequests? }

  lemma QuietIsQuiet(s: State, e: Event)
    requires IsQuiet(e)
    ensures var s' := Step(s, e);
            && s'.mem.records == s.mem.records && s'.topology == s.topology
            && (s'.disk.records == s.disk.records || s'.disk.records == s.mem.records)
  {}

  lemma QuietEventKeepsLab(s: State, e: Event, s': State, lab: Lab)
    requires LabInv(s, lab) && InOrder(s, e, lab) && FenceInv(s) && FenceMove(s, s', lab) && OpMove(s, e, s', lab)
    requires s'.mem.records == s.mem.records && s'.topology == s.topology
    requires s'.disk.records == s.disk.records || s'.disk.records == s.mem.records
    requires !e.OnRecords? && e != WriteTopology(lab)
    requires forall op: Operation :: op.CommitOp? && Begins(s, e, lab, op) ==>
               Accepts(FrontOf(s), lab, op.fence) || Retired(s, lab, op.fence.generation)
    ensures Agrees(s', lab) && OpInv(s', lab)
  {
    SameLabAgrees(s.mem.records, s'.mem.records, s.disk.records, s'.disk.records, Stored(s.topology, lab), lab);
    if lab in s'.requests.ops {
      var op := s'.requests.ops[lab];
      if lab !in s.requests.ops {
        BegunFits(s, e, lab, op);
      }
      LaterOpFits(s, s', op, lab);
    }
  }

  lemma DestroyKeepsLab(s: State, e: Event, lab: Lab)
    requires LabInv(s, lab) && InOrder(s, e, lab) && e.Destroy? && FenceMove(s, Step(s, e), lab) && FenceInv(s)
    ensures Agrees(Step(s, e), lab) && OpInv(Step(s, e), lab)
  {
    if Destroyable(s.requests, e.lab, e.fence) && AcceptedAt(s, e) && e.ok {
      var r := DestroyRecords(s.mem.records, e.lab);
      if e.lab != lab {
        SameLabAgrees(s.mem.records, r, s.disk.records, r, Stored(s.topology, lab), lab);
        if lab in s.requests.ops {
          var op := s.requests.ops[lab];
          var retired := Retired(s, lab, op.fence.generation);
          SameLabKeepsOp(s.mem.records, r, Stored(s.topology, lab), op, lab, retired, retired);
          LaterOpFits(s, Step(s, e), op, lab);
        }
      }
    } else {
      assert Step(s, e) == s;
    }
  }

  lemma LoudEventKeepsLab(s: State, e: Event, lab: Lab)
    requires LabInv(s, lab) && InOrder(s, e, lab) && FenceInv(s) && Readable(e) && !IsQuiet(e)
    requires FenceMove(s, Step(s, e), lab) && OpMove(s, e, Step(s, e), lab)
    ensures Agrees(Step(s, e), lab) && OpInv(Step(s, e), lab)
  {
    if e.OnRecords? {
      if Reachable(s.requests, e.lab, e.fence, e.record) {
        RecordEventAgrees(s, e, lab);
        RecordFrame(s, e);
        if !IsFree(e.record) { RecordedIsDone(s, e); }
        RecordEventKeepsOpInv(s, e, Step(s, e), lab);
      }
    } else if e.WriteTopology? {
      WriteTopologyKeepsLab(s, e.lab, lab);
    } else if e.Destroy? {
      DestroyKeepsLab(s, e, lab);
    } else {
      RestartKeepsAgreement(s, lab);
    }
  }

  /** The lease of a commit request is taken under a fence that is accepted or can never be again. */
  lemma CommitBeginsFenced(ss: seq<State>, es: seq<Event>, n: nat, lab: Lab)
    requires IsRun(ss, es) && Durable(es) && n < |es|
    ensures forall op: Operation :: op.CommitOp? && Begins(ss[n], es[n], lab, op) ==>
              Accepts(FrontOf(ss[n]), lab, op.fence) || Retired(ss[n], lab, op.fence.generation)
  {
    var e := es[n];
    if e.OnRequests? && e.request.BeginCommit? && e.request.id in ss[n].requests.commits {
      WaitingCommitIsFenced(ss, es, n, e.request.id);
    }
  }

  lemma RunStepKeepsLab(ss: seq<State>, es: seq<Event>, n: nat, lab: Lab)
    requires IsRun(ss, es) && Durable(es) && n < |es| && LabInv(ss[n], lab) && InOrder(ss[n], es[n], lab)
    ensures Agrees(ss[n + 1], lab) && OpInv(ss[n + 1], lab)
  {
    var s, e := ss[n], es[n];
    assert StepAt(ss, es, n);
    RunMoves(ss, es, n, lab);
    StepMovesOp(s, e, lab);
    if IsQuiet(e) {
      CommitBeginsFenced(ss, es, n, lab);
      QuietIsQuiet(s, e);
      QuietEventKeepsLab(s, e, ss[n + 1], lab);
    } else {
      LoudEventKeepsLab(s, e, lab);
    }
  }

  /** Memory, journal and topology file agree on a lab in every state its requests reach in order. */
  lemma {:induction false} RunKeepsLab(ss: seq<State>, es: seq<Event>, n: nat, lab: Lab)
    requires IsRun(ss, es) && Durable(es) && n < |ss| && Orderly(ss, es, n, lab)
    ensures LabInv(ss[n], lab)
  {
    RunKeepsTx(ss, es, n, lab);
    if n > 0 {
      RunKeepsLab(ss, es, n - 1, lab);
      RunStepKeepsLab(ss, es, n - 1, lab);
    }
  }
}
