/**
 What the requests that wait for the operation lease found when they read their
 transaction, over whole runs: a commit is of a transaction no recovery was
 asked for, a recovery of one that was uncommitted.
 */
module RequestOrigins {
  import opened Common
  import opened CoordinationState
  import opened RecordSteps
  import opened RequestSteps
  import opened CoordinationRun
  import opened Operations
  import opened Fencing
  import opened Transactions
  import opened TransactionRuns

  // ---------- commit requests ----------

  /** The phases in which a recovery was asked for or is under way. */
  predicate InRecovery(p: Phase) { p == RollbackNeeded || p == Phase.Recovering || p == RollbackFailed }

  /** In this state the fence is accepted and owns an applied transaction that is not in recovery. */
  predicate Committing(s: State, read: CommitRead) {
    && Accepts(FrontOf(s), read.lab, read.fence)
    && read.lab in s.mem.records.transactions && s.mem.records.transactions[read.lab] == read.tx
    && read.tx.fence == read.fence.generation && read.tx.applied && !InRecovery(read.tx.phase)
  }

  /** A commit request that waits has read its transaction at an earlier step, applied and not in recovery. */
  lemma {:induction false} CommitReadOrigin(ss: seq<State>, es: seq<Event>, n: nat, id: nat) returns (i: nat)
    requires IsRun(ss, es) && n < |ss| && id in ss[n].requests.commits
    ensures var read := ss[n].requests.commits[id];
            && i < n && es[i] == OnRequests(ReadForCommit(id, read.lab, read.fence, read.tx.generation))
            && Committing(ss[i], read)
  {
    if n == 0 {
      assert false;
    } else {
      assert StepAt(ss, es, n - 1);
      var s, e := ss[n - 1], es[n - 1];
      if id in s.requests.commits && s.requests.commits[id] == ss[n].requests.commits[id] {
        i := CommitReadOrigin(ss, es, n - 1, id);
      } else {
        i := n - 1;
        CommitReadAdded(s, e, ss[n], id);
      }
    }
  }

  /** Apart from the requests' own steps only a restart changes what they have read. */
  lemma OthersKeepReads(s: State, e: Event)
    requires !e.OnRequests?
    ensures var q := Step(s, e).requests;
            || (q.commits == s.requests.commits && q.recoveries == s.requests.recoveries)
            || (q.commits == map[] && q.recoveries == map[])
  {
    if e.OnRecords? {
      RecordsKeepReads(s, e);
    }
  }

  lemma RecordsKeepReads(s: State, e: Event)
    requires e.OnRecords?
    ensures var q := Step(s, e).requests;
            q.commits == s.requests.commits && q.recoveries == s.requests.recoveries
  {
    if Reachable(s.requests, e.lab, e.fence, e.record) {
      var w := RecordStep(s.mem.records, e.lab, AcceptedAt(s, e), e.fence.generation, e.record, e.ok);
      var isNew := e.lab !in s.mem.records.transactions && e.lab in w.records.transactions;
      AfterRecordKeepsReads(s.requests, e.lab, e.fence, e.record, isNew, Started(w, e.lab));
    }
  }

  lemma AfterRecordKeepsReads(q: Requests, lab: Lab, f: Fence, e: RecordEvent, isNew: bool,
                              started: Option<Transaction>)
    requires Reachable(q, lab, f, e)
    ensures var q' := AfterRecord(q, lab, f, e, isNew, started);
            q'.commits == q.commits && q'.recoveries == q.recoveries
  {}

  /** Only that step adds a read. */
  lemma CommitReadAdded(s: State, e: Event, s': State, id: nat)
    requires s' == Step(s, e) && id in s'.requests.commits
    requires !(id in s.requests.commits && s.requests.commits[id] == s'.requests.commits[id])
    ensures var read := s'.requests.commits[id];
            e == OnRequests(ReadForCommit(id, read.lab, read.fence, read.tx.generation)) && Committing(s, read)
  {
    if e.OnRequests? {
      assert s'.requests == RequestStep(s, e.request);
      CommitReadBy(s, e.request, id);
    } else {
      OthersKeepReads(s, e);
    }
  }

  lemma CommitReadBy(s: State, e: RequestEvent, id: nat)
    requires id in RequestStep(s, e).commits
    requires !(id in s.requests.commits && s.requests.commits[id] == RequestStep(s, e).commits[id])
    ensures var read := RequestStep(s, e).commits[id];
            e == ReadForCommit(id, read.lab, read.fence, read.tx.generation) && Committing(s, read)
  {}

  /** So has the commit request that holds the lease. */
  lemma {:induction false} CommitOpOrigin(ss: seq<State>, es: seq<Event>, n: nat, lab: Lab) returns (i: nat)
    requires IsRun(ss, es) && n < |ss| && lab in ss[n].requests.ops && ss[n].requests.ops[lab].CommitOp?
    ensures var op := ss[n].requests.ops[lab];
            && i < n && es[i].OnRequests? && es[i].request.ReadForCommit?
            && Committing(ss[i], CommitRead(lab, op.fence, op.read))
  {
    if n == 0 {
      assert false;
    } else {
      assert StepAt(ss, es, n - 1);
      StepMovesOp(ss[n - 1], es[n - 1], lab);
      if lab in ss[n - 1].requests.ops {
        i := CommitOpOrigin(ss, es, n - 1, lab);
      } else {
        i := CommitReadOrigin(ss, es, n - 1, es[n - 1].request.id);
      }
    }
  }

  /**
   Every commit by a commit request is of a transaction that the request read
   before: under the same fence, applied, and not in recovery.
   */
  lemma CommitWasCommittable(ss: seq<State>, es: seq<Event>, k: nat, lab: Lab, g: nat, generation: Generation)
    returns (i: nat, read: CommitRead)
    requires IsRun(ss, es) && k < |es| && CommitsAt(ss[k], es[k], lab, g, generation)
    requires lab in ss[k].requests.ops && ss[k].requests.ops[lab].CommitOp?
    ensures i < k && es[i].OnRequests? && es[i].request.ReadForCommit? && Committing(ss[i], read)
    ensures read.lab == lab && read.fence == es[k].fence && read.tx.generation == generation
  {
    i := CommitOpOrigin(ss, es, k, lab);
    var op := ss[k].requests.ops[lab];
    read := CommitRead(lab, op.fence, op.read);
  }

  /** Every commit finds the topology file of its generation on disk. */
  lemma CommitHasItsFile(ss: seq<State>, es: seq<Event>, k: nat, lab: Lab, g: nat, generation: Generation)
    requires IsRun(ss, es) && k < |es| && CommitsAt(ss[k], es[k], lab, g, generation)
    ensures lab in ss[k].topology && ss[k].topology[lab].generation == generation
    ensures lab in ss[k].requests.ops && Leaves(ss[k].requests.ops[lab], Some(ss[k].topology[lab]))
  {
    WrittenIsStored(ss, es, k, lab);
  }

  /** Every recovery finds the topology file that the prepare of the transaction it read found. */
  lemma RecoveryHasItsFile(ss: seq<State>, es: seq<Event>, k: nat, lab: Lab)
    requires IsRun(ss, es) && k < |es| && Happens(ss[k], es[k], lab) && es[k].record.Recover?
    ensures lab in ss[k].requests.ops && ss[k].requests.ops[lab].RollbackOp?
    ensures Stored(ss[k].topology, lab) == ss[k].requests.ops[lab].read.plan.stored
  {
    WrittenIsStored(ss, es, k, lab);
  }

  /** A destroy is recorded when the topology file is gone; only a reclamation does without that. */
  lemma DestroyHasNoFile(ss: seq<State>, es: seq<Event>, k: nat, lab: Lab)
    requires IsRun(ss, es) && k < |es| && es[k].Destroy? && es[k].lab == lab && ss[k + 1] != ss[k]
    ensures lab in ss[k].requests.ops && ss[k].requests.ops[lab].DestroyOp?
    ensures ss[k].requests.ops[lab].fence == es[k].fence && Accepts(FrontOf(ss[k]), lab, es[k].fence)
    ensures lab !in ss[k].topology || ss[k].requests.ops[lab].reap
  {
    assert StepAt(ss, es, k);
    WrittenIsStored(ss, es, k, lab);
  }

  // ---------- once a recovery was asked for ----------

  /** The step resumes the transaction of the lab: an apply mark, a commit already under way, or a re-fence. */
  predicate Resumes(e: Event, lab: Lab) {
    && IsRecord(e, lab)
    && (e.record.Advance? || e.record.Commit? || e.record.Refence?)
  }

  lemma RecordKeepsRecovery(r: Records, lab: Lab, accepted: bool, g: nat, e: RecordEvent, ok: bool)
    requires lab in r.transactions && InRecovery(r.transactions[lab].phase)
    requires !e.Advance? && !e.Commit? && !e.Refence? && (e.MarkPhase? ==> InRecovery(e.phase))
    ensures var after := RecordStep(r, lab, accepted, g, e, ok).records;
            lab in after.transactions ==> InRecovery(after.transactions[lab].phase)
  {}

  /** The transaction is in recovery, or its fence is gone. */
  ghost predicate Held(s: State, lab: Lab) {
    && lab in s.mem.records.transactions
    && (InRecovery(s.mem.records.transactions[lab].phase) || Orphaned(s, lab))
  }

  lemma HeldRefusesReads(s: State, e: Event, s': State, lab: Lab, id: nat)
    requires Held(s, lab) && s' == Step(s, e) && id in s'.requests.commits && s'.requests.commits[id].lab == lab
    ensures id in s.requests.commits && s.requests.commits[id] == s'.requests.commits[id]
  {
    if !(id in s.requests.commits && s.requests.commits[id] == s'.requests.commits[id]) {
      CommitReadAdded(s, e, s', id);
      RetiredIsRefused(s, lab, s'.requests.commits[id].fence);
    }
  }

  lemma RecordEventKeepsHeld(s: State, e: Event, lab: Lab)
    requires e.OnRecords? && !Resumes(e, lab) && lab in s.mem.records.transactions
    requires InRecovery(s.mem.records.transactions[lab].phase) && lab in Step(s, e).mem.records.transactions
    ensures InRecovery(Step(s, e).mem.records.transactions[lab].phase)
  {
    if !Reachable(s.requests, e.lab, e.fence, e.record) {
    } else if e.lab == lab {
      RecordKeepsRecovery(s.mem.records, lab, AcceptedAt(s, e), e.fence.generation, e.record, e.ok);
      RecordFrame(s, e);
    } else {
      OtherLabsUntouched(s.mem.records, e.lab, AcceptedAt(s, e), e.fence.generation, e.record, e.ok, lab);
    }
  }

  lemma OthersKeepHeld(s: State, e: Event, lab: Lab)
    requires !e.OnRecords? && !e.Restart? && lab in s.mem.records.transactions
    requires InRecovery(s.mem.records.transactions[lab].phase) && lab in Step(s, e).mem.records.transactions
    ensures InRecovery(Step(s, e).mem.records.transactions[lab].phase)
  {}

  lemma RunKeepsHeld(ss: seq<State>, es: seq<Event>, n: nat, lab: Lab)
    requires IsRun(ss, es) && Durable(es) && n < |es| && Held(ss[n], lab) && !Resumes(es[n], lab)
    requires lab in ss[n + 1].mem.records.transactions
    ensures Held(ss[n + 1], lab)
  {
    assert StepAt(ss, es, n);
    if es[n].Restart? {
      RunKeepsTx(ss, es, n, lab);
      RestartOrphans(ss[n], lab);
    } else if Orphaned(ss[n], lab) {
      OrphanStays(ss, es, n, lab);
    } else if es[n].OnRecords? {
      RecordEventKeepsHeld(ss[n], es[n], lab);
    } else {
      OthersKeepHeld(ss[n], es[n], lab);
    }
  }

  lemma OrphanStays(ss: seq<State>, es: seq<Event>, n: nat, lab: Lab)
    requires IsRun(ss, es) && Durable(es) && n < |es| && Orphaned(ss[n], lab) && !Resumes(es[n], lab)
    requires lab in ss[n + 1].mem.records.transactions
    ensures Orphaned(ss[n + 1], lab)
  {
    OrphanIsStuck(ss, es, n, n + 1, lab);
  }

  /** The transaction stays open from step to step, and none of them resumes it. */
  ghost predicate Suspended(ss: seq<State>, es: seq<Event>, i: nat, k: nat, lab: Lab)
    requires |ss| == |es| + 1 && i <= k < |ss|
  {
    && (forall m | i <= m <= k :: lab in ss[m].mem.records.transactions)
    && (forall m | i <= m < k :: !Resumes(es[m], lab))
  }

  lemma {:induction false} HeldWhileSuspended(ss: seq<State>, es: seq<Event>, i: nat, k: nat, lab: Lab)
    requires IsRun(ss, es) && Durable(es) && i <= k < |ss| && Suspended(ss, es, i, k, lab) && Held(ss[i], lab)
    ensures Held(ss[k], lab)
    decreases k
  {
    if i < k {
      HeldWhileSuspended(ss, es, i, k - 1, lab);
      RunKeepsHeld(ss, es, k - 1, lab);
    }
  }

  /**
   Once a recovery of a transaction was asked for, no commit request reads it
   any more, over restarts too, until it is resumed or closed.
   */
  lemma {:induction false} NoCommitReadInRecovery(ss: seq<State>, es: seq<Event>, i: nat, k: nat, lab: Lab, id: nat)
    requires IsRun(ss, es) && Durable(es) && i <= k < |ss| && Suspended(ss, es, i, k, lab)
    requires InRecovery(ss[i].mem.records.transactions[lab].phase)
    requires id in ss[k].requests.commits && ss[k].requests.commits[id].lab == lab
    ensures id in ss[i].requests.commits && ss[i].requests.commits[id] == ss[k].requests.commits[id]
    decreases k
  {
    if i < k {
      HeldWhileSuspended(ss, es, i, k - 1, lab);
      assert StepAt(ss, es, k - 1);
      HeldRefusesReads(ss[k - 1], es[k - 1], ss[k], lab, id);
      NoCommitReadInRecovery(ss, es, i, k - 1, lab, id);
    }
  }

  // ---------- recovery requests ----------

  /** In this state the fence is accepted and the transaction uncommitted. */
  predicate Undecided(s: State, lab: Lab, f: Fence, generation: Generation) {
    && Accepts(FrontOf(s), lab, f) && lab in s.mem.records.transactions
    && s.mem.records.transactions[lab].generation == generation && !s.mem.records.transactions[lab].committed
  }

  lemma RecoveryReadAdded(s: State, e: Event, s': State, id: nat)
    requires s' == Step(s, e) && id in s'.requests.recoveries
    requires !(id in s.requests.recoveries && s.requests.recoveries[id] == s'.requests.recoveries[id])
    ensures var read := s'.requests.recoveries[id];
            && e == OnRequests(ReadForRecovery(id, read.lab, read.fence, read.forward))
            && Undecided(s, read.lab, read.fence, read.generation)
  {
    if e.OnRequests? {
      assert s'.requests == RequestStep(s, e.request);
      RecoveryReadBy(s, e.request, id);
    } else {
      OthersKeepReads(s, e);
    }
  }

  lemma RecoveryReadBy(s: State, e: RequestEvent, id: nat)
    requires id in RequestStep(s, e).recoveries
    requires !(id in s.requests.recoveries && s.requests.recoveries[id] == RequestStep(s, e).recoveries[id])
    ensures var read := RequestStep(s, e).recoveries[id];
            && e == ReadForRecovery(id, read.lab, read.fence, read.forward)
            && Undecided(s, read.lab, read.fence, read.generation)
  {}

  lemma {:induction false} RecoveryReadOrigin(ss: seq<State>, es: seq<Event>, n: nat, id: nat) returns (i: nat)
    requires IsRun(ss, es) && n < |ss| && id in ss[n].requests.recoveries
    ensures var read := ss[n].requests.recoveries[id];
            && i < n && es[i] == OnRequests(ReadForRecovery(id, read.lab, read.fence, read.forward))
            && Undecided(ss[i], read.lab, read.fence, read.generation)
  {
    if n == 0 {
      assert false;
    } else {
      assert StepAt(ss, es, n - 1);
      var s, e := ss[n - 1], es[n - 1];
      if id in s.requests.recoveries && s.requests.recoveries[id] == ss[n].requests.recoveries[id] {
        i := RecoveryReadOrigin(ss, es, n - 1, id);
      } else {
        i := n - 1;
        RecoveryReadAdded(s, e, ss[n], id);
      }
    }
  }

  /** A request that rolls back or forwards a transaction found it uncommitted before, under the same fence. */
  lemma {:induction false} RecoveryWasTested(ss: seq<State>, es: seq<Event>, n: nat, lab: Lab) returns (i: nat)
    requires IsRun(ss, es) && n < |ss| && lab in ss[n].requests.ops
    requires ss[n].requests.ops[lab].RollbackOp? || ss[n].requests.ops[lab].ForwardOp?
    ensures var op := ss[n].requests.ops[lab];
            && i < n && es[i].OnRequests? && es[i].request.ReadForRecovery? && es[i].request.forward == op.ForwardOp?
            && Undecided(ss[i], lab, op.fence, op.read.generation)
  {
    if n == 0 {
      assert false;
    } else {
      assert StepAt(ss, es, n - 1);
      var s, e, op := ss[n - 1], es[n - 1], ss[n].requests.ops[lab];
      StepMovesOp(s, e, lab);
      if lab in s.requests.ops {
        i := RecoveryWasTested(ss, es, n - 1, lab);
      } else {
        var id :| id in s.requests.recoveries
          && s.requests.recoveries[id] == RecoveryRead(lab, op.fence, op.read.generation, op.ForwardOp?);
        i := RecoveryReadOrigin(ss, es, n - 1, id);
      }
    }
  }
}
