/** How a step moves the request that holds the operation lease of a lab. */
module Operations {
  import opened Common
  import opened CoordinationState
  import opened TableSteps
  import opened RecordSteps
  import opened RequestSteps
  import opened CoordinationRun

  function AcceptedAt(s: State, e: Event): bool
    requires e.OnRecords? || e.Destroy?
  {
    Accepts(FrontOf(s), e.lab, e.fence)
  }

  predicate IsRecord(e: Event, lab: Lab) { e.OnRecords? && e.lab == lab }

  /** A record event of the lab whose request has got to it. */
  predicate Happens(s: State, e: Event, lab: Lab) {
    IsRecord(e, lab) && Reachable(s.requests, lab, e.fence, e.record)
  }

  /** The records a reachable record event leaves. */
  function RecordsAfter(s: State, e: Event): Records
    requires e.OnRecords?
  {
    RecordStep(s.mem.records, e.lab, AcceptedAt(s, e), e.fence.generation, e.record, e.ok).records
  }

  /** What a reachable record event changes besides the operation lease. */
  lemma RecordFrame(s: State, e: Event)
    requires e.OnRecords? && Reachable(s.requests, e.lab, e.fence, e.record)
    ensures var s', txs := Step(s, e), s.mem.records.transactions;
            && s'.mem.records == RecordsAfter(s, e) && s'.topology == s.topology
            && s'.requests.files == s.requests.files
            && s'.requests.prepares ==
               if e.record.Prepare? && e.lab !in txs && e.lab in s'.mem.records.transactions
               then Staled(s.requests.prepares, e.lab) else s.requests.prepares
  {}

  /** The step takes the operation lease for `op`. */
  predicate Begins(s: State, e: Event, lab: Lab, op: Operation) {
    match op
    case ApplyOp(f, read, safe) =>
      && e == OnRequests(BeginApply(lab, f, read.generation))
      && OwnsTransaction(s.mem.records, lab, Accepts(FrontOf(s), lab, f), f.generation, read.generation)
      && read == s.mem.records.transactions[lab] && !ApplyRefused(read) && safe == SafeToApply(s, lab)
    case CommitOp(f, read, stage) =>
      && e.OnRequests? && e.request.BeginCommit? && TakesCommit(s.requests, e.request.id)
      && s.requests.commits[e.request.id] == CommitRead(lab, f, read) && stage == Begun
    case RollbackOp(f, read, stage) => StartsRecovery(s, e, lab, f, false, read, stage)
    case ForwardOp(f, read, stage) => StartsRecovery(s, e, lab, f, true, read, stage)
    case DestroyOp(f, reap, stage) => e == OnRequests(BeginDestroy(lab, f, reap)) && stage == Begun
  }

  predicate StartsRecovery(s: State, e: Event, lab: Lab, f: Fence, forward: bool, read: Transaction, stage: Stage) {
    && Happens(s, e, lab) && e.fence == f && e.record == StartRecovery(read.generation, forward) && e.ok
    && HasTransaction(s.mem.records, lab, AcceptedAt(s, e), read.generation)
    && read == s.mem.records.transactions[lab].(phase := Phase.Recovering) && stage == Begun
  }

  /** The holder stays; its own writes move its stage. */
  predicate Moves(s: State, e: Event, lab: Lab, was: Operation, op: Operation) {
    || op == was
    || (!was.ApplyOp? && e == WriteTopology(lab) && was.stage != Done && op == was.(stage := Written))
    || (!was.ApplyOp? && Happens(s, e, lab) && (e.record.Commit? || e.record.Recover?) && op == was.(stage := Done))
  }

  ghost predicate OpMove(s: State, e: Event, s': State, lab: Lab) {
    lab in s'.requests.ops ==>
      if lab in s.requests.ops then Moves(s, e, lab, s.requests.ops[lab], s'.requests.ops[lab])
      else Begins(s, e, lab, s'.requests.ops[lab])
  }

  predicate IsBegin(e: RequestEvent) { e.BeginApply? || e.BeginCommit? || e.BeginDestroy? }

  lemma BeginMovesOp(s: State, e: Event, lab: Lab)
    requires e.OnRequests? && IsBegin(e.request)
    ensures OpMove(s, e, Step(s, e), lab)
  {
    var q := RequestStep(s, e.request);
    if q.ops == s.requests.ops {
    } else if e.request.BeginApply? {
    } else if e.request.BeginCommit? {
      assert TakesCommit(s.requests, e.request.id);
    }
  }

  lemma RequestMovesOp(s: State, e: Event, lab: Lab)
    requires e.OnRequests?
    ensures OpMove(s, e, Step(s, e), lab)
  {
    if IsBegin(e.request) {
      BeginMovesOp(s, e, lab);
    }
  }

  lemma RecordMovesOp(s: State, e: Event, lab: Lab)
    requires e.OnRecords?
    ensures OpMove(s, e, Step(s, e), lab)
  {
    if !Reachable(s.requests, e.lab, e.fence, e.record) {
    } else if e.record.StartRecovery? {
    } else if e.record.Commit? || e.record.Recover? {
    }
  }

  /** Only these steps take the lease of a lab or move its holder. */
  lemma StepMovesOp(s: State, e: Event, lab: Lab)
    ensures OpMove(s, e, Step(s, e), lab)
  {
    if e.OnRequests? {
      RequestMovesOp(s, e, lab);
    } else if e.OnRecords? {
      RecordMovesOp(s, e, lab);
    }
  }

  /** The topology file of a lab changes only by the request that holds its operation lease. */
  lemma TopologyHasOneWriter(s: State, e: Event, lab: Lab)
    requires Stored(Step(s, e).topology, lab) != Stored(s.topology, lab)
    ensures e == WriteTopology(lab) && WritesTopology(s.requests, lab)
    ensures Leaves(s.requests.ops[lab], Stored(Step(s, e).topology, lab))
  {}

  /**
   The topology file a request leaves: none for a destroy, the one its prepare
   read for a rollback, and otherwise one of the generation and overlays of its
   transaction, built as that says, or as before for a scoped one.
   */
  predicate Leaves(op: Operation, file: Option<TopologyFile>) {
    match op
    case ApplyOp(_, _, _) => false
    case DestroyOp(_, _, _) => file.None?
    case RollbackOp(_, read, _) => file == read.plan.stored
    case _ =>
      && file.Some? && file.value.generation == op.read.generation && file.value.vnis == op.read.plan.vnis
      && (!op.read.plan.scoped ==>
            file.value.mode == op.read.plan.mode && file.value.ungraded == op.read.plan.ungraded)
      && (op.read.plan.scoped && op.read.plan.stored.Some? ==>
            && file.value.mode == op.read.plan.stored.value.mode
            && file.value.ungraded == op.read.plan.stored.value.ungraded)
  }

  lemma StepKeepsWritten(s: State, e: Event, lab: Lab)
    requires lab in s.requests.ops && !s.requests.ops[lab].ApplyOp? && s.requests.ops[lab].stage == Written ==>
               Leaves(s.requests.ops[lab], Stored(s.topology, lab))
    ensures var s' := Step(s, e);
            lab in s'.requests.ops && !s'.requests.ops[lab].ApplyOp? && s'.requests.ops[lab].stage == Written ==>
              Leaves(s'.requests.ops[lab], Stored(s'.topology, lab))
  {
    StepMovesOp(s, e, lab);
    if Stored(Step(s, e).topology, lab) != Stored(s.topology, lab) {
      TopologyHasOneWriter(s, e, lab);
    }
  }

  /** A request that has written the topology file finds it as it wrote it until it ends. */
  lemma {:induction false} WrittenIsStored(ss: seq<State>, es: seq<Event>, n: nat, lab: Lab)
    requires IsRun(ss, es) && n < |ss|
    ensures var s := ss[n];
            lab in s.requests.ops && !s.requests.ops[lab].ApplyOp? && s.requests.ops[lab].stage == Written ==>
              Leaves(s.requests.ops[lab], Stored(s.topology, lab))
  {
    if n > 0 {
      WrittenIsStored(ss, es, n - 1, lab);
      assert StepAt(ss, es, n - 1);
      StepKeepsWritten(ss[n - 1], es[n - 1], lab);
    }
  }

  /** Claims of a previous topology are written back only by the rollback that holds the lease, as its file says. */
  lemma ClaimsAreRestoredByRollback(s: State, te: TableEvent)
    requires te.RestoreClaims? && Step(s, OnTable(te)) != s
    ensures te.lab in s.requests.ops && s.requests.ops[te.lab].RollbackOp?
    ensures var op := s.requests.ops[te.lab];
            op.fence == te.fence && op.read.plan.stored.Some? && te.vnis == op.read.plan.stored.value.vnis
  {}
}
