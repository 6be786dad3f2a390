/**
 Every step that is not in order can break the agreement of memory, journal and
 topology file, from any state in which they agree.
 */
module OutOfOrder {
  import opened Common
  import opened CoordinationState
  import opened RecordSteps
  import opened RequestSteps
  import opened CoordinationRun
  import opened Operations
  import opened Transactions
  import opened Agreement
  import opened TransactionRuns
  import opened GenerationRuns
  import opened Deployments

  // ---------- commit ----------

  /** A commit request whose generation no longer fits writes it into the topology file all the same. */
  lemma StaleCommitOverwrites(s: State, id: nat, s1: State, s2: State)
    requires TakesCommit(s.requests, id)
    requires !FileFits(s.mem.records, s.requests.commits[id].lab, s.requests.commits[id].tx.generation)
    requires s1 == Step(s, OnRequests(BeginCommit(id)))
    requires s2 == Step(s1, WriteTopology(s.requests.commits[id].lab))
    ensures var read := s.requests.commits[id];
            && s2.mem == s.mem && Stored(s2.topology, read.lab) == Some(CommittedFile(read.tx))
            && !Agrees(s2, read.lab)
  {}

  /** A restart then takes the overwritten generation over. */
  lemma RestartFollowsFile(s: State, lab: Lab)
    requires lab in s.topology && !FileFits(s.mem.records, lab, s.topology[lab].generation)
    ensures CommittedOf(RestartStep(s, true), lab) == s.topology[lab].generation
    ensures lab !in s.mem.records.transactions ==>
              CommittedOf(RestartStep(s, true), lab) != CommittedOf(s, lab)
  {}

  predicate CommittedSince(s: State, read: CommitRead) {
    && OwnsTransaction(s.mem.records, read.lab, Accepts(FrontOf(s), read.lab, read.fence), read.fence.generation,
                       read.tx.generation)
    && s.mem.records.transactions[read.lab].committed
  }

  function CommitOf(read: CommitRead, ok: bool): Event {
    OnRecords(read.lab, read.fence, Commit(read.tx.generation, None), ok)
  }

  /**
   A commit request whose transaction was committed since it read it commits it
   again. It finds its own generation, not the one its prepare compared against;
   when its save fails the transaction is uncommitted in memory only.
   */
  lemma SecondCommitSplits(s: State, id: nat, s1: State, s2: State, s3: State)
    requires TakesCommit(s.requests, id) && CommittedSince(s, s.requests.commits[id])
    requires TxInv(s, s.requests.commits[id].lab) && Agrees(s, s.requests.commits[id].lab)
    requires s1 == Step(s, OnRequests(BeginCommit(id)))
    requires s2 == Step(s1, WriteTopology(s.requests.commits[id].lab))
    requires s3 == Step(s2, CommitOf(s.requests.commits[id], false))
    ensures var read := s.requests.commits[id];
            && CommitsAt(s2, CommitOf(read, true), read.lab, read.fence.generation, read.tx.generation)
            && CommittedOf(s2, read.lab) == read.tx.generation
            && read.lab in s3.mem.records.transactions && !s3.mem.records.transactions[read.lab].committed
            && CommittedOf(s3, read.lab) == read.tx.generation
            && read.lab in s3.disk.records.transactions && s3.disk.records.transactions[read.lab].committed
            && !Agrees(s3, read.lab)
  {
    CommitBegun(s, id, s1, s2);
  }

  lemma CommitBegun(s: State, id: nat, s1: State, s2: State)
    requires TakesCommit(s.requests, id)
    requires s1 == Step(s, OnRequests(BeginCommit(id)))
    requires s2 == Step(s1, WriteTopology(s.requests.commits[id].lab))
    ensures var read := s.requests.commits[id];
            && s2.mem == s.mem && s2.disk == s.disk && FrontOf(s2) == FrontOf(s)
            && Reachable(s2.requests, read.lab, read.fence, Commit(read.tx.generation, None))
  {}

  // ---------- recovery ----------

  predicate Starts(s: State, lab: Lab, f: Fence, forward: bool) {
    && lab in s.mem.records.transactions && Accepts(FrontOf(s), lab, f)
    && Reachable(s.requests, lab, f, StartRecovery(s.mem.records.transactions[lab].generation, forward))
  }

  /** A recovery starts on a transaction that was committed since its request tested it. */
  predicate StartsLate(s: State, lab: Lab, f: Fence, forward: bool) {
    Starts(s, lab, f, forward) && s.mem.records.transactions[lab].committed
  }

  function StartOf(s: State, lab: Lab, f: Fence, forward: bool): Event
    requires lab in s.mem.records.transactions
  {
    OnRecords(lab, f, StartRecovery(s.mem.records.transactions[lab].generation, forward), true)
  }

  /** What a recovery finds after its start and its write of the topology file. */
  lemma RecoveryBegun(s: State, lab: Lab, f: Fence, forward: bool, s1: State, s2: State)
    requires Starts(s, lab, f, forward)
    requires s1 == Step(s, StartOf(s, lab, f, forward))
    requires s2 == Step(s1, WriteTopology(lab))
    ensures var tx := s.mem.records.transactions[lab].(phase := Phase.Recovering);
            && s1.requests.ops == s.requests.ops[lab := if forward then ForwardOp(f, tx, Begun)
                                                        else RollbackOp(f, tx, Begun)]
            && s1.mem.records == SetTransaction(s.mem.records, lab, tx) && FrontOf(s1) == FrontOf(s)
            && s1.disk.records == s1.mem.records
            && s2.mem == s1.mem && s2.disk == s1.disk && FrontOf(s2) == FrontOf(s)
            && (!forward ==> s2.topology == WithFile(s.topology, lab, tx.plan.stored))
            && s2.requests.ops == s.requests.ops[lab := if forward then ForwardOp(f, tx, Stage.Written)
                                                        else RollbackOp(f, tx, Stage.Written)]
  {}

  /** A rollback then takes the committed generation away from a committed transaction. */
  lemma LateRollbackSplits(s: State, lab: Lab, f: Fence, s1: State, s2: State, s3: State)
    requires StartsLate(s, lab, f, false) && TxInv(s, lab)
    requires s.mem.records.transactions[lab].previous != s.mem.records.transactions[lab].generation
    requires s1 == Step(s, StartOf(s, lab, f, false)) && s2 == Step(s1, WriteTopology(lab))
    requires s3 == Step(s2, OnRecords(lab, f, Recover(s.mem.records.transactions[lab].generation), false))
    ensures lab in s3.mem.records.transactions && s3.mem.records.transactions[lab].committed
    ensures CommittedOf(s3, lab) == s.mem.records.transactions[lab].previous && !Agrees(s3, lab)
  {
    RecoveryBegun(s, lab, f, false, s1, s2);
  }

  /** Forward recovery takes it over, and its commit can fail like a second one. */
  lemma LateForwardSplits(s: State, lab: Lab, f: Fence, s1: State, s2: State, s3: State, s4: State)
    requires StartsLate(s, lab, f, true) && TxInv(s, lab)
    requires s1 == Step(s, StartOf(s, lab, f, true))
    requires var generation := s.mem.records.transactions[lab].generation;
             && s2 == Step(s1, OnRecords(lab, f, Refence(generation), true)) && s3 == Step(s2, WriteTopology(lab))
             && s4 == Step(s3, OnRecords(lab, f, Commit(generation, None), false))
    ensures lab in s4.mem.records.transactions && !s4.mem.records.transactions[lab].committed
    ensures lab in s4.disk.records.transactions && s4.disk.records.transactions[lab].committed && !Agrees(s4, lab)
  {
    RecoveryBegun(s, lab, f, true, s1, Step(s1, WriteTopology(lab)));
    RefencedAndWritten(s1, lab, f, s.mem.records.transactions[lab].generation, s2, s3);
  }

  lemma RefencedAndWritten(s: State, lab: Lab, f: Fence, generation: Generation, s1: State, s2: State)
    requires lab in s.requests.ops && s.requests.ops[lab].ForwardOp? && IsOf(s.requests.ops[lab], f, generation)
    requires s.requests.ops[lab].stage == Begun && HasTransaction(s.mem.records, lab, true, generation)
    requires s1 == Step(s, OnRecords(lab, f, Refence(generation), true)) && s2 == Step(s1, WriteTopology(lab))
    ensures var tx := s.mem.records.transactions[lab].(fence := f.generation, phase := Phase.Applying);
            && s2.mem.records == s2.disk.records == SetTransaction(s.mem.records, lab, tx) && FrontOf(s2) == FrontOf(s)
            && Reachable(s2.requests, lab, f, Commit(generation, None))
  {}

  // ---------- prepare and destroy ----------

  /** The steps of a prepare and its rollback. */
  function PrepareAndAbort(lab: Lab, f: Fence, expected: Generation, generation: Generation, plan: Plan, id: nat):
    seq<Event>
  {
    [OnRecords(lab, f, Prepare(expected, generation, plan), true), OnRequests(EndRequest(lab)),
     OnRequests(ReadForRecovery(id, lab, f, false)), OnRecords(lab, f, StartRecovery(generation, false), true),
     WriteTopology(lab), OnRecords(lab, f, Recover(generation), true)]
  }

  /**
   A prepare that read the topology file before another deployment replaced it
   restores the old file when it is rolled back.
   */
  lemma StalePrepareRestores(s: State, lab: Lab, f: Fence, expected: Generation, generation: Generation, plan: Plan,
                             id: nat, s1: State, s2: State, s3: State, s4: State, s5: State, s6: State)
    requires FreeAt(s, lab, f, expected) && generation != ""
    requires exists i :: i in s.requests.files && s.requests.files[i] == FileRead(lab, plan.stored)
    requires plan.stored.Some? && plan.stored.value.generation != expected
    requires var es := PrepareAndAbort(lab, f, expected, generation, plan, id);
             && s1 == Step(s, es[0]) && s2 == Step(s1, es[1]) && s3 == Step(s2, es[2])
             && s4 == Step(s3, es[3]) && s5 == Step(s4, es[4]) && s6 == Step(s5, es[5])
    ensures lab !in s6.mem.records.transactions && CommittedOf(s6, lab) == expected
    ensures Stored(s6.topology, lab) == plan.stored && !Agrees(s6, lab)
  {
    PrepareOpens(s, lab, f, expected, generation, plan);
    RecoveryRead(s1, lab, f, id, s2, s3);
    RecoveryBegun(s3, lab, f, false, s4, s5);
    RecoveryCloses(s4, lab, f, s4.mem.records.transactions[lab], s5, s6);
  }

  lemma RecoveryRead(s: State, lab: Lab, f: Fence, id: nat, s1: State, s2: State)
    requires lab in s.mem.records.transactions && !s.mem.records.transactions[lab].committed
    requires Accepts(FrontOf(s), lab, f)
    requires s1 == Step(s, OnRequests(EndRequest(lab)))
    requires s2 == Step(s1, OnRequests(ReadForRecovery(id, lab, f, false)))
    ensures Starts(s2, lab, f, false) && s2.mem == s.mem && s2.disk == s.disk && s2.topology == s.topology
    ensures FrontOf(s2) == FrontOf(s)
  {
    var generation := s.mem.records.transactions[lab].generation;
    assert s2.requests.recoveries[id] == CoordinationState.RecoveryRead(lab, f, generation, false);
  }

  /** A reclamation that could not remove the topology file leaves it without a generation to name. */
  lemma LeftoverFileReturns(s: State, lab: Lab, f: Fence, s1: State)
    requires Destroyable(s.requests, lab, f) && Accepts(FrontOf(s), lab, f)
    requires lab in s.topology && s.topology[lab].generation != ""
    requires s1 == Step(s, Destroy(lab, f, true))
    ensures !Agrees(s1, lab) && CommittedOf(s1, lab) == ""
    ensures CommittedOf(RestartStep(s1, true), lab) == s.topology[lab].generation
  {}

  // ---------- every late step ----------

  /** The step acts on a reading that is out of date, in one of the ways below. */
  ghost predicate ActsLate(s: State, e: Event, lab: Lab) {
    || (&& e.OnRequests? && e.request.BeginCommit? && TakesCommit(s.requests, e.request.id)
        && var read := s.requests.commits[e.request.id];
           read.lab == lab && (!FileFits(s.mem.records, lab, read.tx.generation) || CommittedSince(s, read)))
    || (&& IsRecord(e, lab) && e.record.StartRecovery? && e.ok && StartsLate(s, lab, e.fence, e.record.forward)
        && var tx := s.mem.records.transactions[lab];
           e.record.generation == tx.generation && (e.record.forward || tx.previous != tx.generation))
    || (&& Happens(s, e, lab) && e.record.Prepare? && e.ok && FreeAt(s, lab, e.fence, e.record.expected)
        && e.record.generation != "" && e.record.plan.stored.Some?
        && e.record.plan.stored.value.generation != e.record.expected)
    || (&& e.Destroy? && e.lab == lab && e.ok && Destroyable(s.requests, lab, e.fence)
        && Accepts(FrontOf(s), lab, e.fence) && lab in s.topology && s.topology[lab].generation != "")
  }

  /** There is no other way to be out of order. */
  lemma OutOfOrderActsLate(s: State, e: Event, lab: Lab)
    ensures InOrder(s, e, lab) <==> !ActsLate(s, e, lab)
  {}

  /** The events lead from one state to the next. */
  ghost predicate Leads(ss: seq<State>, es: seq<Event>) {
    |ss| == |es| + 1 && forall i | 0 <= i < |es| :: StepAt(ss, es, i)
  }

  lemma LeadsOn(ss: seq<State>, es: seq<Event>, e: Event, s: State)
    requires Leads(ss, es) && Allowed(ss[|es|], e) && s == Step(ss[|es|], e)
    ensures Leads(ss + [s], es + [e])
  {
    var ss', es' := ss + [s], es + [e];
    forall i | 0 <= i < |es'| ensures StepAt(ss', es', i) {
      if i < |es| {
        assert StepAt(ss, es, i);
      }
    }
  }

  /** The states along the events, none of which is a step on the lease table. */
  lemma LedBy(s: State, es: seq<Event>) returns (ss: seq<State>)
    requires forall e | e in es :: !e.OnTable?
    ensures Leads(ss, es) && ss[0] == s
    decreases |es|
  {
    if es == [] {
      return [s];
    }
    var last := |es| - 1;
    var before := LedBy(s, es[..last]);
    LeadsOn(before, es[..last], es[last], Step(before[last], es[last]));
    assert es == es[..last] + [es[last]];
    ss := before + [Step(before[last], es[last])];
  }

  /**
   From every state that agrees, every late step begins a run of events after
   which the lab's memory, journal and topology file do not agree.
   */
  lemma LateStepSplits(s: State, e: Event, lab: Lab) returns (ss: seq<State>, es: seq<Event>)
    requires LabInv(s, lab) && !InOrder(s, e, lab)
    ensures Leads(ss, es) && |es| > 0 && ss[0] == s && es[0] == e
    ensures !Agrees(ss[|es|], lab)
  {
    OutOfOrderActsLate(s, e, lab);
    if e.OnRequests? {
      ss, es := LateCommitSplits(s, e.request.id, lab);
    } else if e.Destroy? {
      es := [e];
      ss := LedBy(s, es);
      assert StepAt(ss, es, 0);
      LeftoverFileReturns(s, lab, e.fence, ss[1]);
    } else if e.record.Prepare? {
      ss, es := LatePrepareSplits(s, e, lab);
    } else {
      ss, es := LateStartSplits(s, lab, e.fence, e.record.forward);
    }
  }

  lemma LateCommitSplits(s: State, id: nat, lab: Lab) returns (ss: seq<State>, es: seq<Event>)
    requires LabInv(s, lab) && TakesCommit(s.requests, id) && s.requests.commits[id].lab == lab
    requires !FileFits(s.mem.records, lab, s.requests.commits[id].tx.generation)
             || CommittedSince(s, s.requests.commits[id])
    ensures Leads(ss, es) && |es| > 0 && ss[0] == s && es[0] == OnRequests(BeginCommit(id))
    ensures !Agrees(ss[|es|], lab)
  {
    var read := s.requests.commits[id];
    es := [OnRequests(BeginCommit(id)), WriteTopology(lab), CommitOf(read, false)];
    if FileFits(s.mem.records, lab, read.tx.generation) {
      ss := LedBy(s, es);
      assert StepAt(ss, es, 0) && StepAt(ss, es, 1) && StepAt(ss, es, 2);
      SecondCommitSplits(s, id, ss[1], ss[2], ss[3]);
    } else {
      es := es[..2];
      ss := LedBy(s, es);
      assert StepAt(ss, es, 0) && StepAt(ss, es, 1);
      StaleCommitOverwrites(s, id, ss[1], ss[2]);
    }
  }

  lemma LateStartSplits(s: State, lab: Lab, f: Fence, forward: bool) returns (ss: seq<State>, es: seq<Event>)
    requires LabInv(s, lab) && StartsLate(s, lab, f, forward)
    requires forward || s.mem.records.transactions[lab].previous != s.mem.records.transactions[lab].generation
    ensures Leads(ss, es) && |es| > 0 && ss[0] == s && es[0] == StartOf(s, lab, f, forward)
    ensures !Agrees(ss[|es|], lab)
  {
    var generation := s.mem.records.transactions[lab].generation;
    if forward {
      es := [StartOf(s, lab, f, true), OnRecords(lab, f, Refence(generation), true), WriteTopology(lab),
             OnRecords(lab, f, Commit(generation, None), false)];
      ss := LedBy(s, es);
      assert StepAt(ss, es, 0) && StepAt(ss, es, 1) && StepAt(ss, es, 2) && StepAt(ss, es, 3);
      LateForwardSplits(s, lab, f, ss[1], ss[2], ss[3], ss[4]);
    } else {
      es := [StartOf(s, lab, f, false), WriteTopology(lab), OnRecords(lab, f, Recover(generation), false)];
      ss := LedBy(s, es);
      assert StepAt(ss, es, 0) && StepAt(ss, es, 1) && StepAt(ss, es, 2);
      LateRollbackSplits(s, lab, f, ss[1], ss[2], ss[3]);
    }
  }

  lemma LatePrepareSplits(s: State, e: Event, lab: Lab) returns (ss: seq<State>, es: seq<Event>)
    requires Happens(s, e, lab) && e.record.Prepare? && e.ok && FreeAt(s, lab, e.fence, e.record.expected)
    requires e.record.generation != "" && e.record.plan.stored.Some?
    requires e.record.plan.stored.value.generation != e.record.expected
    ensures Leads(ss, es) && |es| > 0 && ss[0] == s && es[0] == e
    ensures !Agrees(ss[|es|], lab)
  {
    var re := e.record;
    es := PrepareAndAbort(lab, e.fence, re.expected, re.generation, re.plan, 0);
    ss := LedBy(s, es);
    assert StepAt(ss, es, 0) && StepAt(ss, es, 1) && StepAt(ss, es, 2);
    assert StepAt(ss, es, 3) && StepAt(ss, es, 4) && StepAt(ss, es, 5);
    StalePrepareRestores(s, lab, e.fence, re.expected, re.generation, re.plan, 0,
                         ss[1], ss[2], ss[3], ss[4], ss[5], ss[6]);
  }
}
