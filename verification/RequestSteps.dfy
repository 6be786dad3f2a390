/**
 Requests that take several locked sections. A request reads in one section and
 writes in a later one; anything that does not need the operation lease it holds
 can come in between.
 */
module RequestSteps {
  import opened Common
  import opened CoordinationState
  import opened RecordSteps

  datatype RequestEvent =
    | ReadStored(id: nat, lab: Lab)
    | ReadPrepared(id: nat, lab: Lab, fence: Fence, generation: Generation, mode: Mode)
    | BeginApply(lab: Lab, fence: Fence, generation: Generation)
    | ReadForCommit(id: nat, lab: Lab, fence: Fence, generation: Generation)
    | BeginCommit(id: nat)
    | ReadForRecovery(id: nat, lab: Lab, fence: Fence, forward: bool)
    | BeginDestroy(lab: Lab, fence: Fence, reap: bool)
    | EndRequest(lab: Lab)

  function Stored(topology: map<Lab, TopologyFile>, lab: Lab): Option<TopologyFile> {
    if lab in topology then Some(topology[lab]) else None
  }

  // ---------- apply ----------

  /** Whoever prepares the lab now, or has read its topology file already, finds it at the reference. */
  predicate AtReference(s: State, lab: Lab) {
    && lab in s.topology && s.topology[lab].mode == Solve
    && forall id | id in s.requests.files && s.requests.files[id].lab == lab ::
         s.requests.files[id].file.Some? && s.requests.files[id].file.value.mode == Solve
  }

  /**
   What an apply request needs at its check to be sure that the transaction it
   marks later is preserved: it checked an uncommitted one, or one that can only
   be followed by a deployment over the reference.
   */
  predicate SafeToApply(s: State, lab: Lab) {
    (lab in s.mem.records.transactions && !s.mem.records.transactions[lab].committed) || AtReference(s, lab)
  }

  /**
   The apply request takes the operation lease, reads the transaction its fence
   owns and refuses a pruning solve without a preservation record.
   */
  function BeginApplyStep(s: State, lab: Lab, f: Fence, generation: Generation): Requests {
    if && lab !in s.requests.ops
       && OwnsTransaction(s.mem.records, lab, Accepts(FrontOf(s), lab, f), f.generation, generation)
       && !ApplyRefused(s.mem.records.transactions[lab])
    then
      var op := ApplyOp(f, s.mem.records.transactions[lab], SafeToApply(s, lab));
      s.requests.(ops := s.requests.ops[lab := op])
    else s.requests
  }

  // ---------- prepare ----------

  /** The prepare request reads the transaction back before it preserves containers. */
  function ReadPreparedStep(s: State, id: nat, lab: Lab, f: Fence, generation: Generation, mode: Mode): Requests {
    if lab in s.mem.records.transactions then
      var read := PreparedRead(lab, f, generation, mode, s.mem.records.transactions[lab], false);
      s.requests.(prepares := s.requests.prepares[id := read])
    else s.requests
  }

  /** The record a prepare request makes of what it preserved. */
  function SolveRecordOf(read: PreparedRead, node: string, topologyHash: string, preserved: seq<string>):
    SolveRecord
  {
    SolveRecord(read.lab, node, read.tx.generation, read.fence.generation, topologyHash,
                read.tx.plan.mode, read.tx.plan.ungraded, read.tx.plan.prune, preserved)
  }

  /** The request decided, from what it read, that it must preserve, and made this record. */
  predicate Builds(read: PreparedRead, lab: Lab, f: Fence, generation: Generation, r: SolveRecord) {
    && read.lab == lab && read.fence == f && read.generation == generation
    && PreservationRequired(read.tx.plan.(mode := read.mode))
    && r == SolveRecordOf(read, r.node, r.topologyHash, r.preserved)
  }

  /** A new transaction of the lab makes what was read of an earlier one stale. */
  function Staled(prepares: map<nat, PreparedRead>, lab: Lab): map<nat, PreparedRead> {
    map id | id in prepares :: if prepares[id].lab == lab then prepares[id].(stale := true) else prepares[id]
  }

  // ---------- commit, recovery, destroy ----------

  /** The commit request reads its transaction before it has the operation lease. */
  function ReadForCommitStep(s: State, id: nat, lab: Lab, f: Fence, generation: Generation): Requests {
    if Committable(s.mem.records, lab, Accepts(FrontOf(s), lab, f), f.generation, generation) then
      var read := CommitRead(lab, f, s.mem.records.transactions[lab]);
      s.requests.(commits := s.requests.commits[id := read])
    else s.requests
  }

  /** The request goes on to commit: the lease is free and what it read was uncommitted. */
  predicate TakesCommit(q: Requests, id: nat) {
    id in q.commits && q.commits[id].lab !in q.ops && !q.commits[id].tx.committed
  }

  function BeginCommitStep(q: Requests, id: nat): Requests {
    if TakesCommit(q, id) then
      var read := q.commits[id];
      q.(ops := q.ops[read.lab := CommitOp(read.fence, read.tx, Begun)],
         commits := q.commits - {id})
    else q.(commits := q.commits - {id})
  }

  /** A recovery request goes on with an uncommitted transaction; it has no lease yet. */
  function ReadForRecoveryStep(s: State, id: nat, lab: Lab, f: Fence, forward: bool): Requests {
    var txs := s.mem.records.transactions;
    if Accepts(FrontOf(s), lab, f) && lab in txs && !txs[lab].committed then
      s.requests.(recoveries := s.requests.recoveries[id := RecoveryRead(lab, f, txs[lab].generation, forward)])
    else s.requests
  }

  function BeginDestroyStep(q: Requests, lab: Lab, f: Fence, reap: bool): Requests {
    if lab in q.ops then q else q.(ops := q.ops[lab := DestroyOp(f, reap, Begun)])
  }

  function RequestStep(s: State, e: RequestEvent): Requests {
    match e
    case ReadStored(id, lab) =>
      s.requests.(files := s.requests.files[id := FileRead(lab, Stored(s.topology, lab))])
    case ReadPrepared(id, lab, f, generation, mode) => ReadPreparedStep(s, id, lab, f, generation, mode)
    case BeginApply(lab, f, generation) => BeginApplyStep(s, lab, f, generation)
    case ReadForCommit(id, lab, f, generation) => ReadForCommitStep(s, id, lab, f, generation)
    case BeginCommit(id) => BeginCommitStep(s.requests, id)
    case ReadForRecovery(id, lab, f, forward) => ReadForRecoveryStep(s, id, lab, f, forward)
    case BeginDestroy(lab, f, reap) => BeginDestroyStep(s.requests, lab, f, reap)
    case EndRequest(lab) => s.requests.(ops := s.requests.ops - {lab})
  }

  // ---------- where in its request a record step can happen ----------

  predicate IsOf(op: Operation, f: Fence, generation: Generation) {
    !op.DestroyOp? && op.fence == f && op.read.generation == generation
  }

  /**
   The marks of an apply request follow its check and those of forward recovery
   its start; a transaction is prepared over a topology file its request read;
   a solve record is one a prepare request made; recovery starts when the lease
   is free; commit and recovery are recorded by the request that holds the lease
   and has written the topology file.
   */
  predicate Reachable(q: Requests, lab: Lab, f: Fence, e: RecordEvent) {
    match e
    case Prepare(_, _, plan) => exists id :: id in q.files && q.files[id] == FileRead(lab, plan.stored)
    case Advance(generation, u) =>
      (match u
       case MarkApplying => lab in q.ops && q.ops[lab].ApplyOp? && IsOf(q.ops[lab], f, generation)
       case RecordSolve(r) => exists id :: id in q.prepares && Builds(q.prepares[id], lab, f, generation, r)
       case _ =>
         && lab in q.ops && (q.ops[lab].ApplyOp? || q.ops[lab].ForwardOp?)
         && IsOf(q.ops[lab], f, generation))
    case MarkPhase(_, phase) => phase in {RollbackNeeded, Phase.Recovering, RollbackFailed}
    case StartRecovery(generation, forward) =>
      lab !in q.ops && exists id :: id in q.recoveries && q.recoveries[id] == RecoveryRead(lab, f, generation, forward)
    case Commit(generation, _) =>
      && lab in q.ops && (q.ops[lab].CommitOp? || q.ops[lab].ForwardOp?)
      && IsOf(q.ops[lab], f, generation) && q.ops[lab].stage == Written
    case Recover(generation) =>
      lab in q.ops && q.ops[lab].RollbackOp? && IsOf(q.ops[lab], f, generation) && q.ops[lab].stage == Written
    case Refence(generation) =>
      lab in q.ops && q.ops[lab].ForwardOp? && IsOf(q.ops[lab], f, generation) && q.ops[lab].stage == Begun
    case _ => true
  }

  /** The claims a rollback writes are those of the topology file its transaction replaced. */
  predicate Restorable(q: Requests, lab: Lab, f: Fence, vnis: seq<VNI>) {
    && lab in q.ops && q.ops[lab].RollbackOp? && q.ops[lab].fence == f && q.ops[lab].stage != Done
    && q.ops[lab].read.plan.stored.Some? && vnis == q.ops[lab].read.plan.stored.value.vnis
  }

  /** A destroy is recorded after the topology file is gone; a reclamation goes on without that. */
  predicate Destroyable(q: Requests, lab: Lab, f: Fence) {
    && lab in q.ops && q.ops[lab].DestroyOp? && q.ops[lab].fence == f
    && (q.ops[lab].stage == Written || q.ops[lab].reap)
  }

  function Advanced(q: Requests, lab: Lab, stage: Stage): Requests
    requires lab in q.ops && !q.ops[lab].ApplyOp?
  {
    q.(ops := q.ops[lab := q.ops[lab].(stage := stage)])
  }

  /** The requests after a record step that was reachable: `isNew` says whether it opened a transaction. */
  function AfterRecord(q: Requests, lab: Lab, f: Fence, e: RecordEvent, isNew: bool, started: Option<Transaction>):
    Requests
    requires Reachable(q, lab, f, e)
  {
    match e
    case Prepare(_, _, _) => if isNew then q.(prepares := Staled(q.prepares, lab)) else q
    case StartRecovery(_, forward) =>
      if started.None? then q
      else q.(ops := q.ops[lab := if forward then ForwardOp(f, started.value, Begun)
                                  else RollbackOp(f, started.value, Begun)])
    case Commit(_, _) => Advanced(q, lab, Done)
    case Recover(_) => Advanced(q, lab, Done)
    case _ => q
  }

  // ---------- the topology file ----------

  function WithFile(topology: map<Lab, TopologyFile>, lab: Lab, file: Option<TopologyFile>): map<Lab, TopologyFile> {
    if file.Some? then topology[lab := file.value] else topology - {lab}
  }

  /** Only the request that holds the operation lease writes the topology file of a lab. */
  predicate WritesTopology(q: Requests, lab: Lab) {
    lab in q.ops && !q.ops[lab].ApplyOp? && q.ops[lab].stage != Done
  }

  /** The file that request leaves, None when it removes it. */
  function Target(op: Operation): Option<TopologyFile>
    requires !op.ApplyOp?
  {
    if op.DestroyOp? then None
    else if op.RollbackOp? then op.read.plan.stored
    else Some(CommittedFile(op.read))
  }
}
