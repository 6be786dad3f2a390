/** A deployment of a lab, step by step: how a run goes on to prepare, apply, commit and finalize. */
module Deployments {
  import opened Common
  import opened CoordinationState
  import opened TableSteps
  import opened RecordSteps
  import opened RequestSteps
  import opened CoordinationRun

  /** The lab is leased by this fence and has no transaction. */
  ghost predicate FreeAt(s: State, lab: Lab, f: Fence, committed: Generation) {
    && Accepts(FrontOf(s), lab, f) && lab !in s.mem.records.transactions
    && GenerationOf(s.mem.records, lab).committed == committed
  }

  /** The lab is leased by this fence, its transaction is this one, and nobody holds the operation lease. */
  ghost predicate OpenAt(s: State, lab: Lab, f: Fence, tx: Transaction) {
    && Accepts(FrontOf(s), lab, f) && lab !in s.requests.ops
    && lab in s.mem.records.transactions && s.mem.records.transactions[lab] == tx && tx.fence == f.generation
  }

  lemma FinalizeFrees(s: State, lab: Lab, f: Fence, generation: Generation, committed: Generation)
    requires OwnsTransaction(s.mem.records, lab, Accepts(FrontOf(s), lab, f), f.generation, generation)
    requires s.mem.records.transactions[lab].committed && committed == GenerationOf(s.mem.records, lab).committed
    ensures var s' := Step(s, OnRecords(lab, f, Finalize(generation), true));
            && FreeAt(s', lab, f, committed) && s'.requests == s.requests && s'.topology == s.topology
            && FrontOf(s') == FrontOf(s)
  {}

  lemma PrepareOpens(s: State, lab: Lab, f: Fence, expected: Generation, generation: Generation, plan: Plan)
    requires FreeAt(s, lab, f, expected) && generation != ""
    requires exists id :: id in s.requests.files && s.requests.files[id] == FileRead(lab, plan.stored)
    ensures var s' := Step(s, OnRecords(lab, f, Prepare(expected, generation, plan), true));
            && FrontOf(s') == FrontOf(s) && lab in s'.mem.records.transactions
            && s'.mem.records.transactions[lab] == Opened(f.generation, expected, generation, plan)
            && GenerationOf(s'.mem.records, lab).committed == expected
            && s'.requests == s.requests.(prepares := Staled(s.requests.prepares, lab))
            && s'.disk == s'.mem && s'.topology == s.topology
  {}

  /** A new node whose lab is leased. */
  lemma ToLeased(lab: Lab, token: string) returns (ss: seq<State>, es: seq<Event>, s: State)
    requires lab != "" && token != ""
    ensures RunTo(ss, es, s) && FreeAt(s, lab, Fence(token, 1), "")
    ensures s.requests == NO_REQUESTS && s.topology == map[] && s.now == 0 && HighWater(s.mem.table, lab) == 1
    ensures s.leases == map[lab := Lease(Fence(token, 1), LeaseTTL(0))]
    ensures s.mem.table.claims == map[] && s.collecting == {}
  {
    var e := Event.OnTable(Acquire(lab, token, 0, true));
    s := Step(START, e);
    EmptyRun();
    OneMore([START], [], e, s);
    ss, es := [START] + [s], [] + [e];
  }

  // ---------- prepare ----------

  /** A prepare reads the topology file and opens the transaction. */
  lemma ToPrepared(ss: seq<State>, es: seq<Event>, s: State, lab: Lab, f: Fence, committed: Generation,
                 generation: Generation, plan: Plan, id: nat)
    returns (ss': seq<State>, es': seq<Event>, s': State)
    requires RunTo(ss, es, s) && FreeAt(s, lab, f, committed) && lab !in s.requests.ops && generation != ""
    requires plan.stored == Stored(s.topology, lab)
    ensures RunTo(ss', es', s') && OpenAt(s', lab, f, Opened(f.generation, committed, generation, plan))
    ensures FrontOf(s') == FrontOf(s) && s'.topology == s.topology && s'.disk == s'.mem
    ensures GenerationOf(s'.mem.records, lab).committed == committed
    ensures s'.requests == s.requests.(files := s.requests.files[id := FileRead(lab, plan.stored)],
                                       prepares := Staled(s.requests.prepares, lab))
  {
    var e1, e2 := OnRequests(ReadStored(id, lab)), OnRecords(lab, f, Prepare(committed, generation, plan), true);
    var s1 := Step(s, e1);
    assert s1.requests.files[id] == FileRead(lab, plan.stored);
    PrepareOpens(s1, lab, f, committed, generation, plan);
    s' := Step(s1, e2);
    ss', es' := TwoMore(ss, es, e1, s1, e2, s');
  }

  lemma TwoMore(ss: seq<State>, es: seq<Event>, e1: Event, s1: State, e2: Event, s2: State)
    returns (ss': seq<State>, es': seq<Event>)
    requires IsRun(ss, es) && Durable(es)
    requires Allowed(ss[|es|], e1) && Readable(e1) && s1 == Step(ss[|es|], e1)
    requires Allowed(s1, e2) && Readable(e2) && s2 == Step(s1, e2)
    ensures RunTo(ss', es', s2) && |es'| == |es| + 2
    ensures es'[|es|] == e1 && es'[|es| + 1] == e2 && ss'[|es|] == ss[|es|] && ss'[|es| + 1] == s1
  {
    OneMore(ss, es, e1, s1);
    OneMore(ss + [s1], es + [e1], e2, s2);
    ss', es' := ss + [s1] + [s2], es + [e1] + [e2];
  }

  // ---------- apply ----------

  /** An apply request checks the transaction and marks it as being applied. */
  lemma ToApplying(ss: seq<State>, es: seq<Event>, s: State, lab: Lab, f: Fence, tx: Transaction)
    returns (ss': seq<State>, es': seq<Event>, s': State)
    requires RunTo(ss, es, s) && OpenAt(s, lab, f, tx) && !ApplyRefused(tx)
    ensures RunTo(ss', es', s') && FrontOf(s') == FrontOf(s) && s'.topology == s.topology
    ensures s'.requests == s.requests.(ops := s.requests.ops[lab := ApplyOp(f, tx, SafeToApply(s, lab))])
    ensures s'.mem.records == SetTransaction(s.mem.records, lab, tx.(phase := Phase.Applying))
    ensures s'.disk == s'.mem
  {
    var e1 := OnRequests(BeginApply(lab, f, tx.generation));
    var e2 := OnRecords(lab, f, Advance(tx.generation, MarkApplying), true);
    var s1 := Step(s, e1);
    s' := Step(s1, e2);
    ss', es' := TwoMore(ss, es, e1, s1, e2, s');
  }

  /** It marks it as applied and ends. */
  lemma ToApplied(ss: seq<State>, es: seq<Event>, s: State, lab: Lab, f: Fence, tx: Transaction)
    returns (ss': seq<State>, es': seq<Event>, s': State)
    requires RunTo(ss, es, s) && OpenAt(s, lab, f, tx) && !ApplyRefused(tx)
    ensures RunTo(ss', es', s') && OpenAt(s', lab, f, tx.(phase := Phase.Applied, applied := true))
    ensures FrontOf(s') == FrontOf(s) && s'.topology == s.topology && s'.requests == s.requests && s'.disk == s'.mem
    ensures GenerationOf(s'.mem.records, lab) == GenerationOf(s.mem.records, lab)
  {
    var ss1, es1, s1 := ToApplying(ss, es, s, lab, f, tx);
    var e2, e3 := OnRecords(lab, f, Advance(tx.generation, MarkApplied), true), OnRequests(EndRequest(lab));
    var s2 := Step(s1, e2);
    s' := Step(s2, e3);
    assert s'.requests.ops == s.requests.ops;
    ss', es' := TwoMore(ss1, es1, e2, s2, e3, s');
  }

  // ---------- commit ----------

  /** Two commit requests read the applied transaction. */
  lemma ToCommitRead(ss: seq<State>, es: seq<Event>, s: State, lab: Lab, f: Fence, tx: Transaction, id: nat, other: nat)
    returns (ss': seq<State>, es': seq<Event>, s': State)
    requires RunTo(ss, es, s) && OpenAt(s, lab, f, tx) && tx.applied && tx.phase == Phase.Applied
    ensures RunTo(ss', es', s')
    ensures var read := CommitRead(lab, f, tx);
            s' == s.(requests := s.requests.(commits := s.requests.commits[id := read][other := read]))
  {
    var e1 := OnRequests(ReadForCommit(id, lab, f, tx.generation));
    var e2 := OnRequests(ReadForCommit(other, lab, f, tx.generation));
    var s1 := Step(s, e1);
    s' := Step(s1, e2);
    ss', es' := TwoMore(ss, es, e1, s1, e2, s');
  }

  /** The first takes the lease and writes the topology file. */
  lemma ToCommitBegun(ss: seq<State>, es: seq<Event>, s: State, id: nat)
    returns (ss': seq<State>, es': seq<Event>, s': State)
    requires RunTo(ss, es, s) && TakesCommit(s.requests, id)
    ensures RunTo(ss', es', s')
    ensures var read := s.requests.commits[id];
            && s'.mem == s.mem && s'.disk == s.disk && FrontOf(s') == FrontOf(s)
            && s'.topology == s.topology[read.lab := CommittedFile(read.tx)]
            && s'.requests == s.requests.(ops := s.requests.ops[read.lab := CommitOp(read.fence, read.tx, Written)],
                                          commits := s.requests.commits - {id})
  {
    var e1, e2 := OnRequests(BeginCommit(id)), WriteTopology(s.requests.commits[id].lab);
    var s1 := Step(s, e1);
    s' := Step(s1, e2);
    ss', es' := TwoMore(ss, es, e1, s1, e2, s');
  }

  /** It records the commit and ends. */
  lemma ToCommitted(ss: seq<State>, es: seq<Event>, s: State, lab: Lab, f: Fence, tx: Transaction)
    returns (ss': seq<State>, es': seq<Event>, s': State)
    requires RunTo(ss, es, s) && lab in s.requests.ops && s.requests.ops[lab] == CommitOp(f, tx, Written)
    requires CanCommit(s.mem.records, lab, Accepts(FrontOf(s), lab, f), f.generation, tx.generation)
    requires s.mem.records.transactions[lab] == tx
    ensures RunTo(ss', es', s') && FrontOf(s') == FrontOf(s) && s'.topology == s.topology
    ensures OpenAt(s', lab, f, tx.(phase := Phase.Committed, committed := true))
    ensures GenerationOf(s'.mem.records, lab).committed == tx.generation
    ensures s'.requests == s.requests.(ops := s.requests.ops - {lab}) && s'.disk == s'.mem
  {
    var e1, e2 := OnRecords(lab, f, Commit(tx.generation, None), true), OnRequests(EndRequest(lab));
    var s1 := Step(s, e1);
    s' := Step(s1, e2);
    assert s'.requests.ops == s.requests.ops - {lab};
    ss', es' := TwoMore(ss, es, e1, s1, e2, s');
  }

  /** The transaction of a deployment when it is applied. */
  function AppliedOf(f: Fence, committed: Generation, generation: Generation, plan: Plan): Transaction {
    Opened(f.generation, committed, generation, plan).(phase := Phase.Applied, applied := true)
  }

  /** A deployment up to the point at which two commit requests have read it. */
  lemma ToReadTwice(ss: seq<State>, es: seq<Event>, s: State, lab: Lab, f: Fence, committed: Generation,
                    generation: Generation, plan: Plan, id: nat, other: nat)
    returns (ss': seq<State>, es': seq<Event>, s': State)
    requires RunTo(ss, es, s) && FreeAt(s, lab, f, committed) && lab !in s.requests.ops && generation != ""
    requires plan.stored == Stored(s.topology, lab) && !PreservationRequired(plan)
    ensures RunTo(ss', es', s') && OpenAt(s', lab, f, AppliedOf(f, committed, generation, plan))
    ensures FrontOf(s') == FrontOf(s) && s'.topology == s.topology && s'.requests.ops == s.requests.ops
    ensures GenerationOf(s'.mem.records, lab).committed == committed
    ensures s'.requests.files == s.requests.files[id := FileRead(lab, plan.stored)]
    ensures var read := CommitRead(lab, f, AppliedOf(f, committed, generation, plan));
            s'.requests.commits == s.requests.commits[id := read][other := read]
  {
    ss', es', s' := ToPrepared(ss, es, s, lab, f, committed, generation, plan, id);
    ss', es', s' := ToApplied(ss', es', s', lab, f, Opened(f.generation, committed, generation, plan));
    ss', es', s' := ToCommitRead(ss', es', s', lab, f, AppliedOf(f, committed, generation, plan), id, other);
  }

  /** The first of them commits it. */
  lemma ToCommittedOnce(ss: seq<State>, es: seq<Event>, s: State, lab: Lab, f: Fence, tx: Transaction, id: nat)
    returns (ss': seq<State>, es': seq<Event>, s': State)
    requires RunTo(ss, es, s) && OpenAt(s, lab, f, tx) && tx.applied && !tx.committed
    requires id in s.requests.commits && s.requests.commits[id] == CommitRead(lab, f, tx)
    ensures RunTo(ss', es', s') && OpenAt(s', lab, f, tx.(phase := Phase.Committed, committed := true))
    ensures FrontOf(s') == FrontOf(s) && s'.topology == s.topology[lab := CommittedFile(tx)] && s'.disk == s'.mem
    ensures GenerationOf(s'.mem.records, lab).committed == tx.generation
    ensures s'.requests.ops == s.requests.ops && s'.requests.files == s.requests.files
    ensures s'.requests.commits == s.requests.commits - {id} && s'.requests.recoveries == s.requests.recoveries
  {
    ss', es', s' := ToCommitBegun(ss, es, s, id);
    ss', es', s' := ToCommitted(ss', es', s', lab, f, tx);
  }

  lemma ToFinalized(ss: seq<State>, es: seq<Event>, s: State, lab: Lab, f: Fence, tx: Transaction)
    returns (ss': seq<State>, es': seq<Event>, s': State)
    requires RunTo(ss, es, s) && OpenAt(s, lab, f, tx) && tx.committed
    requires GenerationOf(s.mem.records, lab).committed == tx.generation
    ensures RunTo(ss', es', s') && FreeAt(s', lab, f, tx.generation)
    ensures s'.requests == s.requests && s'.topology == s.topology && FrontOf(s') == FrontOf(s)
  {
    var e := OnRecords(lab, f, Finalize(tx.generation), true);
    FinalizeFrees(s, lab, f, tx.generation, tx.generation);
    s' := Step(s, e);
    OneMore(ss, es, e, s');
    ss', es' := ss + [s'], es + [e];
  }

  // ---------- recovery ----------

  /** The operation a recovery starts with. */
  function RecoveryOf(f: Fence, tx: Transaction, forward: bool): Operation {
    if forward then ForwardOp(f, tx, Begun) else RollbackOp(f, tx, Begun)
  }

  lemma StartRecovers(s: State, lab: Lab, f: Fence, forward: bool)
    requires Accepts(FrontOf(s), lab, f) && lab in s.mem.records.transactions
    requires Reachable(s.requests, lab, f, StartRecovery(s.mem.records.transactions[lab].generation, forward))
    ensures var tx := s.mem.records.transactions[lab].(phase := Phase.Recovering);
            var s' := Step(s, OnRecords(lab, f, StartRecovery(tx.generation, forward), true));
            && FrontOf(s') == FrontOf(s) && s'.topology == s.topology && s'.disk == s'.mem
            && s'.mem.records == SetTransaction(s.mem.records, lab, tx)
            && s'.requests == s.requests.(ops := s.requests.ops[lab := RecoveryOf(f, tx, forward)])
  {}

  /** A recovery request finds the transaction uncommitted and starts. */
  lemma ToRecovering(ss: seq<State>, es: seq<Event>, s: State, lab: Lab, f: Fence, forward: bool, id: nat)
    returns (ss': seq<State>, es': seq<Event>, s': State)
    requires RunTo(ss, es, s) && Accepts(FrontOf(s), lab, f) && lab !in s.requests.ops
    requires lab in s.mem.records.transactions && !s.mem.records.transactions[lab].committed
    ensures RunTo(ss', es', s') && FrontOf(s') == FrontOf(s) && s'.topology == s.topology && s'.disk == s'.mem
    ensures var tx := s.mem.records.transactions[lab].(phase := Phase.Recovering);
            && s'.mem.records == SetTransaction(s.mem.records, lab, tx)
            && s'.requests.ops == s.requests.ops[lab := RecoveryOf(f, tx, forward)]
            && s'.requests.prepares == s.requests.prepares && s'.requests.files == s.requests.files
  {
    var generation := s.mem.records.transactions[lab].generation;
    var e1 := OnRequests(ReadForRecovery(id, lab, f, forward));
    var e2 := OnRecords(lab, f, StartRecovery(generation, forward), true);
    var s1 := Step(s, e1);
    assert s1.requests.recoveries[id] == RecoveryRead(lab, f, generation, forward);
    StartRecovers(s1, lab, f, forward);
    s' := Step(s1, e2);
    ss', es' := TwoMore(ss, es, e1, s1, e2, s');
  }

  /** A rollback restores the topology file and records the recovery. */
  lemma RecoveryCloses(s: State, lab: Lab, f: Fence, tx: Transaction, s1: State, s2: State)
    requires Accepts(FrontOf(s), lab, f)
    requires lab in s.requests.ops && s.requests.ops[lab] == RollbackOp(f, tx, Begun)
    requires lab in s.mem.records.transactions && s.mem.records.transactions[lab] == tx
    requires s1 == Step(s, WriteTopology(lab)) && s2 == Step(s1, OnRecords(lab, f, Recover(tx.generation), true))
    ensures FreeAt(s2, lab, f, tx.previous) && FrontOf(s2) == FrontOf(s)
    ensures s2.topology == WithFile(s.topology, lab, tx.plan.stored)
    ensures s2.requests == s.requests.(ops := s.requests.ops[lab := RollbackOp(f, tx, Done)])
  {}

  /** Then it ends. */
  lemma ToRolledBack(ss: seq<State>, es: seq<Event>, s: State, lab: Lab, f: Fence, tx: Transaction)
    returns (ss': seq<State>, es': seq<Event>, s': State)
    requires RunTo(ss, es, s) && Accepts(FrontOf(s), lab, f)
    requires lab in s.requests.ops && s.requests.ops[lab] == RollbackOp(f, tx, Begun)
    requires lab in s.mem.records.transactions && s.mem.records.transactions[lab] == tx
    ensures RunTo(ss', es', s') && FreeAt(s', lab, f, tx.previous) && FrontOf(s') == FrontOf(s)
    ensures s'.topology == WithFile(s.topology, lab, tx.plan.stored)
    ensures s'.requests == s.requests.(ops := s.requests.ops - {lab})
  {
    var e1, e2, e3 := WriteTopology(lab), OnRecords(lab, f, Recover(tx.generation), true), OnRequests(EndRequest(lab));
    var s1 := Step(s, e1);
    var s2 := Step(s1, e2);
    RecoveryCloses(s, lab, f, tx, s1, s2);
    ss', es' := TwoMore(ss, es, e1, s1, e2, s2);
    s' := Step(s2, e3);
    assert s'.requests.ops == s.requests.ops - {lab};
    OneMore(ss', es', e3, s');
    ss', es' := ss' + [s'], es' + [e3];
  }
}
