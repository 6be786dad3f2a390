/**
 Transactions over whole runs: a commit happens under the one fence that opened
 (or re-fenced) the transaction, a transaction whose fence lapsed cannot move
 forward, and a commit finds the generation its prepare compared against.
 */
module TransactionRuns {
  import opened Common
  import opened CoordinationState
  import opened RecordSteps
  import opened RequestSteps
  import opened CoordinationRun
  import opened Operations
  import opened Fencing
  import opened Transactions
  import opened Agreement

  // ---------- successful events ----------

  /** The step opens a transaction for `generation` under fence generation `g`. */
  predicate PreparesAt(s: State, e: Event, lab: Lab, g: nat, generation: Generation) {
    && Happens(s, e, lab) && e.record.Prepare? && e.ok
    && e.fence.generation == g && e.record.generation == generation
    && CanPrepare(s.mem.records, lab, AcceptedAt(s, e), e.record.expected, generation)
  }

  /** Forward recovery puts the open transaction under fence generation `g`. */
  predicate RefencesAt(s: State, e: Event, lab: Lab, g: nat, generation: Generation) {
    && Happens(s, e, lab) && e.record.Refence?
    && e.fence.generation == g && e.record.generation == generation
    && HasTransaction(s.mem.records, lab, true, generation)
  }

  predicate AppliesAt(s: State, e: Event, lab: Lab, generation: Generation) {
    && Happens(s, e, lab) && e.record == Advance(generation, MarkApplied)
    && OwnsTransaction(s.mem.records, lab, AcceptedAt(s, e), e.fence.generation, generation)
  }

  predicate CommitsAt(s: State, e: Event, lab: Lab, g: nat, generation: Generation) {
    && Happens(s, e, lab) && e.record.Commit? && e.ok
    && e.fence.generation == g && e.record.generation == generation
    && CanCommit(s.mem.records, lab, AcceptedAt(s, e), g, generation)
  }

  predicate FinalizesAt(s: State, e: Event, lab: Lab, g: nat, generation: Generation) {
    && Happens(s, e, lab) && e.record == Finalize(generation) && e.ok
    && e.fence.generation == g
    && OwnsTransaction(s.mem.records, lab, AcceptedAt(s, e), g, generation)
    && s.mem.records.transactions[lab].committed
  }

  /** A saved recovery or destroy by an accepted fence, or reconciliation of a committed inventory. */
  predicate ClosesAt(s: State, e: Event, lab: Lab) {
    || (Happens(s, e, lab) && e.record.Recover? && e.ok
        && HasTransaction(s.mem.records, lab, AcceptedAt(s, e), e.record.generation))
    || (e.Destroy? && e.lab == lab && e.ok && AcceptedAt(s, e) && Destroyable(s.requests, lab, e.fence))
    || (IsRecord(e, lab) && e.record.Absorb? && e.ok && Absorbs(s.mem.records, lab, e.record.refreshed))
  }

  // ---------- what a step does to the transaction of a lab ----------

  /** Where the transaction in the records after a step comes from. */
  ghost predicate TxFrom(s: State, e: Event, r: Records, lab: Lab)
    requires lab in r.transactions
  {
    var tx := r.transactions[lab];
    || (&& lab !in s.mem.records.transactions
        && PreparesAt(s, e, lab, tx.fence, tx.generation)
        && tx.previous == e.record.expected && tx.plan == e.record.plan && !tx.applied && !tx.committed)
    || (&& lab in s.mem.records.transactions
        && TxKept(s, e, lab, s.mem.records.transactions[lab], tx))
  }

  /** A restart that finds a transaction committed in the journal only. */
  predicate SplitRestart(s: State, e: Event, lab: Lab) {
    e.Restart? && lab in s.disk.records.transactions && s.disk.records.transactions[lab].committed
  }

  ghost predicate TxKept(s: State, e: Event, lab: Lab, was: Transaction, tx: Transaction) {
    && tx.generation == was.generation && tx.previous == was.previous && tx.plan == was.plan
    && (tx.fence == was.fence || e.Restart? || RefencesAt(s, e, lab, tx.fence, tx.generation))
    && (tx.applied ==> was.applied || AppliesAt(s, e, lab, tx.generation))
    && (tx.committed ==> was.committed || CommitsAt(s, e, lab, tx.fence, tx.generation) || SplitRestart(s, e, lab))
    && (RefencesAt(s, e, lab, tx.fence, tx.generation) ==> tx.committed == was.committed)
  }

  ghost predicate TxMoved(s: State, e: Event, r: Records, lab: Lab) {
    && (lab in r.transactions ==> TxFrom(s, e, r, lab))
    && (lab in s.mem.records.transactions && lab !in r.transactions ==>
          ClosesAt(s, e, lab) || exists g, generation :: FinalizesAt(s, e, lab, g, generation))
  }

  ghost predicate TxMove(s: State, e: Event, s': State, lab: Lab) { TxMoved(s, e, s'.mem.records, lab) }

  lemma OpeningMoves(s: State, e: Event, lab: Lab)
    requires Happens(s, e, lab) && (e.record.Prepare? || e.record.Advance? || e.record.MarkPhase?)
    ensures TxMoved(s, e, RecordsAfter(s, e), lab)
  {}

  lemma CommitMoves(s: State, e: Event, lab: Lab)
    requires Happens(s, e, lab) && e.record.Commit?
    ensures TxMoved(s, e, RecordsAfter(s, e), lab)
  {}

  lemma RecoveryMoves(s: State, e: Event, lab: Lab)
    requires Happens(s, e, lab)
    requires e.record.StartRecovery? || e.record.Reopen? || e.record.Refence? || e.record.Recover?
    ensures TxMoved(s, e, RecordsAfter(s, e), lab)
  {}

  lemma ClosingMoves(s: State, e: Event, lab: Lab)
    requires Happens(s, e, lab) && (e.record.Finalize? || e.record.Absorb?)
    ensures TxMoved(s, e, RecordsAfter(s, e), lab)
  {
    if e.record.Finalize? && FinalizesAt(s, e, lab, e.fence.generation, e.record.generation) {}
  }

  lemma RecordMoves(s: State, e: Event, lab: Lab)
    requires e.OnRecords?
    ensures TxMove(s, e, Step(s, e), lab)
  {
    if !Reachable(s.requests, e.lab, e.fence, e.record) {
    } else if e.lab != lab {
      OtherLabsUntouched(s.mem.records, e.lab, AcceptedAt(s, e), e.fence.generation, e.record, e.ok, lab);
    } else if e.record.Commit? {
      CommitMoves(s, e, lab);
    } else if e.record.Prepare? || e.record.Advance? || e.record.MarkPhase? {
      OpeningMoves(s, e, lab);
    } else if e.record.Finalize? || e.record.Absorb? {
      ClosingMoves(s, e, lab);
    } else {
      RecoveryMoves(s, e, lab);
    }
  }

  lemma OtherEventMoves(s: State, e: Event, lab: Lab)
    requires !e.OnRecords? && TxInv(s, lab) && Readable(e)
    ensures TxMove(s, e, Step(s, e), lab)
  {}

  /** A step leaves the journal alone or writes what memory holds. */
  lemma DiskFollows(s: State, e: Event)
    ensures var s' := Step(s, e);
            s'.disk.records == s.disk.records || s'.disk.records == s'.mem.records
  {}

  /** One step of a run, seen from one lab. */
  lemma RunMovesTx(ss: seq<State>, es: seq<Event>, n: nat, lab: Lab)
    requires IsRun(ss, es) && Durable(es) && n < |es|
    ensures TxInv(ss[n], lab) && TxMove(ss[n], es[n], ss[n + 1], lab)
    ensures FenceInv(ss[n]) && FenceMove(ss[n], ss[n + 1], lab)
    ensures es[n].Restart? ==> ss[n + 1].leases == map[]
    ensures ss[n + 1].disk.records == ss[n].disk.records || ss[n + 1].disk.records == ss[n + 1].mem.records
  {
    assert StepAt(ss, es, n);
    DiskFollows(ss[n], es[n]);
    RunKeepsTx(ss, es, n, lab);
    if es[n].OnRecords? {
      RecordMoves(ss[n], es[n], lab);
    } else {
      OtherEventMoves(ss[n], es[n], lab);
    }
    RunMoves(ss, es, n, lab);
  }

  // ---------- one fence from prepare to commit ----------

  /** The lab's transaction is open under a fence that is accepted. */
  ghost predicate Under(s: State, lab: Lab, f: Fence, generation: Generation, previous: Generation) {
    && lab in s.mem.records.transactions
    && s.mem.records.transactions[lab].generation == generation
    && s.mem.records.transactions[lab].previous == previous
    && s.mem.records.transactions[lab].fence == f.generation
    && Accepts(FrontOf(s), lab, f)
  }

  lemma StepUnder(s: State, e: Event, s': State, lab: Lab, f: Fence, generation: Generation, previous: Generation)
    requires TxInv(s, lab) && FenceInv(s) && FenceMove(s, s', lab) && TxMove(s, e, s', lab)
    requires e.Restart? ==> s'.leases == map[]
    requires Under(s', lab, f, generation, previous)
    requires !PreparesAt(s, e, lab, f.generation, generation) && !RefencesAt(s, e, lab, f.generation, generation)
    ensures Under(s, lab, f, generation, previous) && !e.Restart?
  {}

  /** The step that put an open transaction under its accepted fence. */
  lemma {:induction false} Origin(ss: seq<State>, es: seq<Event>, n: nat, lab: Lab, f: Fence,
                                  generation: Generation, previous: Generation) returns (p: nat)
    requires IsRun(ss, es) && Durable(es) && n < |ss|
    requires Under(ss[n], lab, f, generation, previous)
    ensures p < n
    ensures PreparesAt(ss[p], es[p], lab, f.generation, generation)
         || RefencesAt(ss[p], es[p], lab, f.generation, generation)
    ensures forall m | p < m <= n :: Under(ss[m], lab, f, generation, previous)
  {
    if n == 0 {
      assert false;
    } else {
      RunMovesTx(ss, es, n - 1, lab);
      if PreparesAt(ss[n - 1], es[n - 1], lab, f.generation, generation)
         || RefencesAt(ss[n - 1], es[n - 1], lab, f.generation, generation) {
        p := n - 1;
      } else {
        StepUnder(ss[n - 1], es[n - 1], ss[n], lab, f, generation, previous);
        p := Origin(ss, es, n - 1, lab, f, generation, previous);
      }
    }
  }

  /** An applied transaction was marked applied by some earlier step. */
  lemma {:induction false} AppliedEarlier(ss: seq<State>, es: seq<Event>, n: nat, lab: Lab) returns (a: nat)
    requires IsRun(ss, es) && Durable(es) && n < |ss|
    requires lab in ss[n].mem.records.transactions && ss[n].mem.records.transactions[lab].applied
    ensures a < n && AppliesAt(ss[a], es[a], lab, ss[n].mem.records.transactions[lab].generation)
    ensures forall m | a < m <= n ::
      lab in ss[m].mem.records.transactions && ss[m].mem.records.transactions[lab].applied
  {
    if n == 0 {
      assert false;
    } else {
      RunMovesTx(ss, es, n - 1, lab);
      var generation := ss[n].mem.records.transactions[lab].generation;
      if AppliesAt(ss[n - 1], es[n - 1], lab, generation) {
        a := n - 1;
      } else {
        a := AppliedEarlier(ss, es, n - 1, lab);
      }
    }
  }

  /**
   A successful commit happens under the fence of the prepare (or forward
   re-fence) that opened the transaction, accepted without interruption since
   then, and the transaction was marked applied before; after a prepare, that
   mark was made under the same fence.
   */
  lemma CommittedUnderOneFence(ss: seq<State>, es: seq<Event>, k: nat, lab: Lab, f: Fence, generation: Generation)
    returns (p: nat, a: nat)
    requires IsRun(ss, es) && Durable(es) && k < |es|
    requires CommitsAt(ss[k], es[k], lab, f.generation, generation) && es[k].fence == f
    ensures p < k && a < k
    ensures PreparesAt(ss[p], es[p], lab, f.generation, generation)
         || RefencesAt(ss[p], es[p], lab, f.generation, generation)
    ensures forall m | p < m <= k ::
      Under(ss[m], lab, f, generation, ss[k].mem.records.transactions[lab].previous)
    ensures AppliesAt(ss[a], es[a], lab, generation)
    ensures PreparesAt(ss[p], es[p], lab, f.generation, generation) ==> p < a && es[a].fence == f
  {
    var previous := ss[k].mem.records.transactions[lab].previous;
    p := Origin(ss, es, k, lab, f, generation, previous);
    a := AppliedEarlier(ss, es, k, lab);
    if PreparesAt(ss[p], es[p], lab, f.generation, generation) {
      RunMovesTx(ss, es, p, lab);
      assert p < a;
      assert Under(ss[a], lab, f, generation, previous);
    }
  }

  predicate IsCommitted(s: State, lab: Lab) {
    lab in s.mem.records.transactions && s.mem.records.transactions[lab].committed
  }

  lemma {:induction false} CommittedSince(ss: seq<State>, es: seq<Event>, p: nat, n: nat, lab: Lab, f: Fence,
                                          generation: Generation, previous: Generation) returns (c: nat)
    requires IsRun(ss, es) && Durable(es) && p < n < |ss|
    requires forall m | p < m <= n :: Under(ss[m], lab, f, generation, previous)
    requires !IsCommitted(ss[p + 1], lab) && IsCommitted(ss[n], lab)
    ensures p < c < n && CommitsAt(ss[c], es[c], lab, f.generation, generation) && es[c].fence == f
    decreases n
  {
    if n == p + 1 {
      assert false;
    } else {
      assert Under(ss[n], lab, f, generation, previous) && Under(ss[n - 1], lab, f, generation, previous);
      RunMovesTx(ss, es, n - 1, lab);
      if CommitsAt(ss[n - 1], es[n - 1], lab, f.generation, generation) {
        c := n - 1;
      } else {
        c := CommittedSince(ss, es, p, n - 1, lab, f, generation, previous);
      }
    }
  }

  /** In order, forward recovery takes over only what is not committed. */
  lemma RefencedUncommitted(ss: seq<State>, es: seq<Event>, p: nat, lab: Lab, g: nat, generation: Generation)
    requires IsRun(ss, es) && Durable(es) && p < |es| && RefencesAt(ss[p], es[p], lab, g, generation)
    requires Orderly(ss, es, p, lab)
    ensures !IsCommitted(ss[p], lab)
  {
    RunKeepsLab(ss, es, p, lab);
  }

  /**
   A finalized transaction was committed under the same fence, accepted since it
   was opened; or forward recovery took it over when it was committed already,
   which requests in order do not do.
   */
  lemma FinalizedAfterCommit(ss: seq<State>, es: seq<Event>, k: nat, lab: Lab, f: Fence, generation: Generation)
    returns (p: nat, c: nat)
    requires IsRun(ss, es) && Durable(es) && k < |es|
    requires FinalizesAt(ss[k], es[k], lab, f.generation, generation) && es[k].fence == f
    ensures p < k
    ensures PreparesAt(ss[p], es[p], lab, f.generation, generation)
         || RefencesAt(ss[p], es[p], lab, f.generation, generation)
    ensures forall m | p < m <= k ::
      Under(ss[m], lab, f, generation, ss[k].mem.records.transactions[lab].previous)
    ensures (p < c < k && CommitsAt(ss[c], es[c], lab, f.generation, generation) && es[c].fence == f)
         || (RefencesAt(ss[p], es[p], lab, f.generation, generation) && IsCommitted(ss[p], lab))
    ensures Orderly(ss, es, p, lab) ==> p < c < k && CommitsAt(ss[c], es[c], lab, f.generation, generation)
  {
    var previous := ss[k].mem.records.transactions[lab].previous;
    p := Origin(ss, es, k, lab, f, generation, previous);
    RunMovesTx(ss, es, p, lab);
    assert Under(ss[p + 1], lab, f, generation, previous);
    if IsCommitted(ss[p + 1], lab) {
      c := 0;
      if Orderly(ss, es, p, lab) {
        RefencedUncommitted(ss, es, p, lab, f.generation, generation);
      }
    } else {
      c := CommittedSince(ss, es, p, k, lab, f, generation, previous);
    }
  }

  // ---------- a transaction whose fence lapsed ----------

  /** The transaction is open and its fence can never be accepted again. */
  ghost predicate Orphaned(s: State, lab: Lab) {
    && lab in s.mem.records.transactions
    && Retired(s, lab, s.mem.records.transactions[lab].fence)
  }

  /** No forward step of the transaction can succeed in this state. */
  ghost predicate NoProgressAt(s: State, e: Event, lab: Lab) {
    forall g: nat, generation: Generation ::
      && !AppliesAt(s, e, lab, generation)
      && !CommitsAt(s, e, lab, g, generation)
      && !FinalizesAt(s, e, lab, g, generation)
  }

  lemma OrphanIsNotOwned(s: State, e: Event, lab: Lab, generation: Generation)
    requires Orphaned(s, lab) && IsRecord(e, lab)
    ensures !OwnsTransaction(s.mem.records, lab, AcceptedAt(s, e), e.fence.generation, generation)
  {
    if e.fence.generation == s.mem.records.transactions[lab].fence {
      RetiredIsRefused(s, lab, e.fence);
    }
  }

  lemma OrphanMakesNoProgress(s: State, e: Event, lab: Lab)
    requires Orphaned(s, lab)
    ensures NoProgressAt(s, e, lab)
  {
    forall g: nat, generation: Generation
      ensures !AppliesAt(s, e, lab, generation)
      ensures !CommitsAt(s, e, lab, g, generation)
      ensures !FinalizesAt(s, e, lab, g, generation)
    {
      if IsRecord(e, lab) {
        OrphanIsNotOwned(s, e, lab, generation);
      }
    }
  }

  /** After a restart no transaction is under an accepted fence. */
  lemma RestartOrphans(s: State, lab: Lab)
    requires TxInv(s, lab) && lab in s.mem.records.transactions
    ensures Orphaned(RestartStep(s, true), lab)
  {}

  /** A transaction whose fence was accepted once and no longer is can never use it again. */
  lemma LapseOrphans(ss: seq<State>, es: seq<Event>, i: nat, j: nat, lab: Lab, f: Fence)
    requires IsRun(ss, es) && Durable(es) && i <= j < |ss|
    requires Accepts(FrontOf(ss[i]), lab, f) && !Accepts(FrontOf(ss[j]), lab, f)
    requires lab in ss[j].mem.records.transactions && ss[j].mem.records.transactions[lab].fence == f.generation
    ensures Orphaned(ss[j], lab)
  {
    AcceptedOrRetired(ss, es, i, j, lab, f);
  }

  /** An orphaned transaction keeps its identity, never advances, and stays orphaned until it closes. */
  ghost predicate StillOrphaned(s: State, s': State, lab: Lab)
    requires lab in s.mem.records.transactions
  {
    && Orphaned(s', lab)
    && var was, tx := s.mem.records.transactions[lab], s'.mem.records.transactions[lab];
       && tx.generation == was.generation && tx.previous == was.previous
       && (tx.applied ==> was.applied) && (Recorded(s', lab) ==> Recorded(s, lab))
  }

  /** The transaction is committed, in memory or in the journal. */
  predicate Recorded(s: State, lab: Lab) {
    || IsCommitted(s, lab)
    || (lab in s.disk.records.transactions && s.disk.records.transactions[lab].committed)
  }

  lemma StepOnOrphan(s: State, e: Event, s': State, lab: Lab)
    requires Orphaned(s, lab) && TxInv(s, lab) && TxInv(s', lab)
    requires FenceInv(s) && FenceMove(s, s', lab) && TxMove(s, e, s', lab)
    requires e.Restart? ==> s'.leases == map[]
    requires s'.disk.records == s.disk.records || s'.disk.records == s'.mem.records
    requires !(IsRecord(e, lab) && e.record.Refence?)
    ensures StillOrphaned(s, s', lab) || (ClosesAt(s, e, lab) && lab !in s'.mem.records.transactions)
  {
    OrphanMakesNoProgress(s, e, lab);
    MoveKeepsRetired(s, s', lab, s.mem.records.transactions[lab].fence);
  }

  /**
   Once its fence has lapsed, a transaction that is not re-fenced by forward
   recovery stays as it is and makes no further progress as long as it is open,
   whatever is attempted on it.
   */
  lemma {:induction false} OrphanIsStuck(ss: seq<State>, es: seq<Event>, j: nat, k: nat, lab: Lab)
    requires IsRun(ss, es) && Durable(es) && j <= k < |ss|
    requires Orphaned(ss[j], lab)
    requires forall m | j <= m < k :: !(IsRecord(es[m], lab) && es[m].record.Refence?)
    requires forall m | j <= m <= k :: lab in ss[m].mem.records.transactions
    ensures StillOrphaned(ss[j], ss[k], lab)
    ensures forall m | j <= m < k :: NoProgressAt(ss[m], es[m], lab)
    decreases k
  {
    if j < k {
      OrphanIsStuck(ss, es, j, k - 1, lab);
      RunMovesTx(ss, es, k - 1, lab);
      RunKeepsTx(ss, es, k, lab);
      StepOnOrphan(ss[k - 1], es[k - 1], ss[k], lab);
      OrphanMakesNoProgress(ss[k - 1], es[k - 1], lab);
    }
  }

  /**
   It leaves only by a recovery or destroy that an accepted fence saved or, when
   it was already committed, by reconciliation of its inventory.
   */
  lemma OrphanLeavesByClose(ss: seq<State>, es: seq<Event>, k: nat, lab: Lab)
    requires IsRun(ss, es) && Durable(es) && k < |es|
    requires Orphaned(ss[k], lab) && lab !in ss[k + 1].mem.records.transactions
    ensures ClosesAt(ss[k], es[k], lab)
  {
    RunMovesTx(ss, es, k, lab);
    OrphanMakesNoProgress(ss[k], es[k], lab);
  }
}
