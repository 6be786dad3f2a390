/**
 Committed generations over whole runs: a commit finds exactly the generation
 its prepare compared against, and a generation changes only by a commit, a
 recovery, a destroy or a restart in the middle of a transaction.
 */
module GenerationRuns {
  import opened Common
  import opened CoordinationState
  import opened RecordSteps
  import opened RequestSteps
  import opened CoordinationRun
  import opened Operations
  import opened Fencing
  import opened Transactions
  import opened Agreement
  import opened TransactionRuns

  function CommittedOf(s: State, lab: Lab): Generation {
    GenerationOf(s.mem.records, lab).committed
  }

  // ---------- a commit finds what its prepare compared ----------

  /** Until it is committed, the transaction sits on the generation it was prepared against. */
  predicate OnBase(r: Records, lab: Lab) {
    lab in r.transactions ==>
      r.transactions[lab].committed || GenerationOf(r, lab).committed == r.transactions[lab].previous
  }

  ghost predicate OnItsBase(s: State, lab: Lab) { OnBase(s.mem.records, lab) }

  lemma RecordKeepsBase(r: Records, lab: Lab, accepted: bool, g: nat, e: RecordEvent, ok: bool)
    requires OnBase(r, lab)
    requires e.Commit? && CanCommit(r, lab, accepted, g, e.generation) ==> !r.transactions[lab].committed
    ensures OnBase(RecordStep(r, lab, accepted, g, e, ok).records, lab)
  {}

  /** A commit request in order does not commit twice. */
  lemma CommitsOnce(s: State, e: Event, lab: Lab)
    requires LabInv(s, lab) && Happens(s, e, lab) && e.record.Commit?
    requires CanCommit(s.mem.records, lab, AcceptedAt(s, e), e.fence.generation, e.record.generation)
    ensures !s.mem.records.transactions[lab].committed
  {
    if Retired(s, lab, e.fence.generation) { RetiredIsRefused(s, lab, e.fence); }
  }

  lemma StepKeepsBase(s: State, e: Event, lab: Lab)
    requires OnItsBase(s, lab) && LabInv(s, lab) && !e.Restart?
    ensures OnItsBase(Step(s, e), lab)
  {
    if Happens(s, e, lab) {
      if e.record.Commit? && CanCommit(s.mem.records, lab, AcceptedAt(s, e), e.fence.generation, e.record.generation) {
        CommitsOnce(s, e, lab);
      }
      RecordKeepsBase(s.mem.records, lab, AcceptedAt(s, e), e.fence.generation, e.record, e.ok);
    } else if e.OnRecords? && e.lab != lab {
      OtherLabsUntouched(s.mem.records, e.lab, AcceptedAt(s, e), e.fence.generation, e.record, e.ok, lab);
    }
  }

  lemma {:induction false} BaseSince(ss: seq<State>, es: seq<Event>, p: nat, k: nat, lab: Lab)
    requires IsRun(ss, es) && Durable(es) && p < k < |ss| && Orderly(ss, es, k, lab)
    requires OnItsBase(ss[p + 1], lab)
    requires forall m | p < m < k :: !es[m].Restart?
    ensures OnItsBase(ss[k], lab)
    decreases k
  {
    if p + 1 < k {
      BaseSince(ss, es, p, k - 1, lab);
      assert StepAt(ss, es, k - 1);
      RunKeepsLab(ss, es, k - 1, lab);
      StepKeepsBase(ss[k - 1], es[k - 1], lab);
    }
  }

  /** The transaction prepared by step `p` was committed by step `c`, under one fence throughout. */
  ghost predicate CommittedFrom(ss: seq<State>, es: seq<Event>, p: nat, c: nat, lab: Lab, f: Fence,
                                generation: Generation)
    requires IsRun(ss, es)
  {
    && p < c < |es|
    && PreparesAt(ss[p], es[p], lab, f.generation, generation)
    && CommitsAt(ss[c], es[c], lab, f.generation, generation) && es[c].fence == f
    && forall m | p < m <= c ::
         Under(ss[m], lab, f, generation, ss[c].mem.records.transactions[lab].previous)
  }

  /**
   A commit by the fence that prepared the transaction, in order, replaces
   exactly the generation the prepare expected.
   */
  lemma CommitFindsExpected(ss: seq<State>, es: seq<Event>, k: nat, lab: Lab, f: Fence, generation: Generation)
    returns (p: nat)
    requires IsRun(ss, es) && Durable(es) && k < |es| && Orderly(ss, es, k, lab)
    requires CommitsAt(ss[k], es[k], lab, f.generation, generation) && es[k].fence == f
    ensures p < k
    ensures RefencesAt(ss[p], es[p], lab, f.generation, generation)
         || (&& CommittedFrom(ss, es, p, k, lab, f, generation)
             && CommittedOf(ss[p], lab) == es[p].record.expected == CommittedOf(ss[k], lab))
    ensures CommittedOf(ss[k + 1], lab) == generation
  {
    p := Origin(ss, es, k, lab, f, generation, ss[k].mem.records.transactions[lab].previous);
    assert StepAt(ss, es, k);
    CommitSetsCommitted(ss[k], es[k], lab, f.generation, generation);
    if PreparesAt(ss[p], es[p], lab, f.generation, generation) {
      RunKeepsLab(ss, es, k, lab);
      CommitsOnce(ss[k], es[k], lab);
      BaseAtCommit(ss, es, p, k, lab, f, generation);
    }
  }

  /** The transaction of the lab is the one with this generation and base. */
  ghost predicate OpenFor(s: State, lab: Lab, generation: Generation, previous: Generation) {
    && lab in s.mem.records.transactions
    && s.mem.records.transactions[lab].generation == generation
    && s.mem.records.transactions[lab].previous == previous
  }

  /** The prepare that opened a transaction, whichever fences it has been under since. */
  lemma {:induction false} PreparedEarlier(ss: seq<State>, es: seq<Event>, n: nat, lab: Lab,
                                           generation: Generation, previous: Generation) returns (q: nat)
    requires IsRun(ss, es) && Durable(es) && n < |ss| && OpenFor(ss[n], lab, generation, previous)
    ensures q < n && IsRecord(es[q], lab)
    ensures PreparesAt(ss[q], es[q], lab, es[q].fence.generation, generation) && es[q].record.expected == previous
    ensures forall m | q < m <= n :: OpenFor(ss[m], lab, generation, previous)
  {
    if n == 0 {
      assert false;
    } else {
      RunMovesTx(ss, es, n - 1, lab);
      if lab !in ss[n - 1].mem.records.transactions {
        q := n - 1;
      } else {
        q := PreparedEarlier(ss, es, n - 1, lab, generation, previous);
      }
    }
  }

  lemma CommitSetsCommitted(s: State, e: Event, lab: Lab, g: nat, generation: Generation)
    requires CommitsAt(s, e, lab, g, generation)
    ensures CommittedOf(Step(s, e), lab) == generation
  {}

  lemma BaseAtCommit(ss: seq<State>, es: seq<Event>, p: nat, k: nat, lab: Lab, f: Fence, generation: Generation)
    requires IsRun(ss, es) && Durable(es) && k < |es| && CommittedFrom(ss, es, p, k, lab, f, generation)
    requires Orderly(ss, es, k, lab) && !ss[k].mem.records.transactions[lab].committed
    ensures CommittedOf(ss[p], lab) == es[p].record.expected == CommittedOf(ss[k], lab)
  {
    var previous := ss[k].mem.records.transactions[lab].previous;
    assert StepAt(ss, es, p);
    assert Under(ss[p + 1], lab, f, generation, previous);
    PrepareStartsOnBase(ss[p], es[p], lab, f.generation, generation);
    forall m | p < m < k ensures !es[m].Restart? {
      assert StepAt(ss, es, m);
      assert Under(ss[m + 1], lab, f, generation, previous);
    }
    BaseSince(ss, es, p, k, lab);
  }

  lemma PrepareStartsOnBase(s: State, e: Event, lab: Lab, g: nat, generation: Generation)
    requires PreparesAt(s, e, lab, g, generation)
    ensures var s' := Step(s, e);
            && CommittedOf(s, lab) == e.record.expected == CommittedOf(s', lab)
            && lab in s'.mem.records.transactions
            && s'.mem.records.transactions[lab].previous == e.record.expected
            && OnItsBase(s', lab)
  {}

  // ---------- how the committed generation can change ----------

  /** The topology file, or without one the journal, names this generation. */
  predicate RestartFinds(s: State, lab: Lab, generation: Generation) {
    generation == if lab in s.topology then s.topology[lab].generation else GenerationOf(s.disk.records, lab).committed
  }

  /** The steps that can set the committed generation of a lab to `to`. */
  predicate SetsCommitted(s: State, e: Event, lab: Lab, to: Generation) {
    || (Happens(s, e, lab) && (e.record.Recover? || e.record.Reopen?)
        && HasTransaction(s.mem.records, lab, AcceptedAt(s, e), e.record.generation)
        && to == s.mem.records.transactions[lab].previous)
    || (e.Destroy? && e.lab == lab && e.ok && to == "")
    || CommitsAt(s, e, lab, if e.OnRecords? then e.fence.generation else 0, to)
    || (e.Restart? && RestartFinds(s, lab, to))
  }

  lemma MarksKeepCommitted(r: Records, lab: Lab, accepted: bool, g: nat, e: RecordEvent, ok: bool)
    requires !e.Commit? && !e.Recover? && !e.Reopen?
    ensures GenerationOf(RecordStep(r, lab, accepted, g, e, ok).records, lab).committed
         == GenerationOf(r, lab).committed
  {}

  lemma RecordChangesCommitted(s: State, e: Event, lab: Lab)
    requires Happens(s, e, lab)
    ensures var to := GenerationOf(RecordsAfter(s, e), lab).committed;
            to == CommittedOf(s, lab) || SetsCommitted(s, e, lab, to)
  {
    if !e.record.Commit? && !e.record.Recover? && !e.record.Reopen? {
      MarksKeepCommitted(s.mem.records, lab, AcceptedAt(s, e), e.fence.generation, e.record, e.ok);
    } else if e.record.Commit? {
    } else if e.record.Recover? {
    }
  }

  lemma StepChangesCommitted(s: State, e: Event, lab: Lab)
    requires Readable(e)
    ensures CommittedOf(Step(s, e), lab) == CommittedOf(s, lab)
         || SetsCommitted(s, e, lab, CommittedOf(Step(s, e), lab))
  {
    if Happens(s, e, lab) {
      RecordChangesCommitted(s, e, lab);
    } else if e.OnRecords? && e.lab != lab {
      OtherLabsUntouched(s.mem.records, e.lab, AcceptedAt(s, e), e.fence.generation, e.record, e.ok, lab);
    }
  }

  /** A committed generation becomes another one only at such a step, in any run. */
  lemma {:induction false} ReachedBy(ss: seq<State>, es: seq<Event>, i: nat, k: nat, lab: Lab, to: Generation)
    returns (m: nat)
    requires IsRun(ss, es) && Durable(es) && i < k < |ss|
    requires CommittedOf(ss[i], lab) != to && CommittedOf(ss[k], lab) == to
    ensures i <= m < k && SetsCommitted(ss[m], es[m], lab, to)
    ensures CommittedOf(ss[m], lab) != to && CommittedOf(ss[m + 1], lab) == to
    decreases k
  {
    assert StepAt(ss, es, k - 1);
    StepChangesCommitted(ss[k - 1], es[k - 1], lab);
    if CommittedOf(ss[k - 1], lab) == to {
      m := ReachedBy(ss, es, i, k - 1, lab, to);
    } else {
      m := k - 1;
    }
  }

  /** In order, a restart without an open transaction keeps the committed generation. */
  lemma RestartKeepsCommitted(ss: seq<State>, es: seq<Event>, n: nat, lab: Lab)
    requires IsRun(ss, es) && Durable(es) && n < |es| && Orderly(ss, es, n, lab)
    requires es[n].Restart? && lab !in ss[n].mem.records.transactions
    ensures CommittedOf(ss[n + 1], lab) == CommittedOf(ss[n], lab)
    ensures lab !in ss[n + 1].mem.records.transactions
  {
    assert StepAt(ss, es, n);
    RunKeepsLab(ss, es, n, lab);
  }

  // ---------- whichever fence commits ----------

  /**
   Whatever fence commits it, and forward recovery in particular, a transaction
   commits over the generation its prepare compared against, unless the process
   restarted in between or it is committed a second time. In order, it is not
   committed twice, and after a restart it finds that generation or its own.
   */
  lemma CommitFindsItsBase(ss: seq<State>, es: seq<Event>, k: nat, lab: Lab, g: nat, generation: Generation)
    returns (q: nat, c: nat)
    requires IsRun(ss, es) && Durable(es) && k < |es| && CommitsAt(ss[k], es[k], lab, g, generation)
    ensures q < k && IsRecord(es[q], lab)
    ensures PreparesAt(ss[q], es[q], lab, es[q].fence.generation, generation)
    ensures (forall m | q < m < k :: !es[m].Restart?) ==>
              || CommittedOf(ss[k], lab) == es[q].record.expected
              || (q < c < k && IsRecord(es[c], lab) && CommitsAt(ss[c], es[c], lab, es[c].fence.generation, generation))
    ensures Orderly(ss, es, k, lab) ==>
              && ((forall m | q < m < k :: !es[m].Restart?) ==> CommittedOf(ss[k], lab) == es[q].record.expected)
              && CommittedOf(ss[k], lab) in {es[q].record.expected, generation}
    ensures CommittedOf(ss[k + 1], lab) == generation
  {
    var previous := ss[k].mem.records.transactions[lab].previous;
    q := PreparedEarlier(ss, es, k, lab, generation, previous);
    assert StepAt(ss, es, k) && StepAt(ss, es, q);
    CommitSetsCommitted(ss[k], es[k], lab, g, generation);
    PrepareStartsOnBase(ss[q], es[q], lab, es[q].fence.generation, generation);
    c := 0;
    if Orderly(ss, es, k, lab) {
      CommitInOrder(ss, es, q, k, lab);
    }
    if (forall m | q < m < k :: !es[m].Restart?) && CommittedOf(ss[k], lab) != previous {
      c := SecondCommit(ss, es, q, k, lab, generation, previous);
    }
  }

  /** In order, an uncommitted transaction is on its base, or after a restart on its own generation. */
  lemma CommitInOrder(ss: seq<State>, es: seq<Event>, q: nat, k: nat, lab: Lab)
    requires IsRun(ss, es) && Durable(es) && q < k < |es| && Orderly(ss, es, k, lab) && OnItsBase(ss[q + 1], lab)
    requires Happens(ss[k], es[k], lab) && es[k].record.Commit?
    requires CanCommit(ss[k].mem.records, lab, AcceptedAt(ss[k], es[k]), es[k].fence.generation,
                       es[k].record.generation)
    ensures var tx := ss[k].mem.records.transactions[lab];
            && CommittedOf(ss[k], lab) in {tx.previous, tx.generation}
            && ((forall m | q < m < k :: !es[m].Restart?) ==> CommittedOf(ss[k], lab) == tx.previous)
  {
    RunKeepsLab(ss, es, k, lab);
    CommitsOnce(ss[k], es[k], lab);
    if forall m | q < m < k :: !es[m].Restart? {
      BaseSince(ss, es, q, k, lab);
    }
  }

  /** An open transaction is off its base only because it was committed before. */
  lemma SecondCommit(ss: seq<State>, es: seq<Event>, q: nat, k: nat, lab: Lab, generation: Generation,
                     previous: Generation) returns (c: nat)
    requires IsRun(ss, es) && Durable(es) && q + 1 < k < |ss|
    requires forall m | q < m <= k :: OpenFor(ss[m], lab, generation, previous)
    requires forall m | q < m < k :: !es[m].Restart?
    requires CommittedOf(ss[q + 1], lab) == previous != CommittedOf(ss[k], lab)
    ensures q < c < k && IsRecord(es[c], lab)
    ensures CommitsAt(ss[c], es[c], lab, es[c].fence.generation, generation)
  {
    c := ReachedBy(ss, es, q + 1, k, lab, CommittedOf(ss[k], lab));
    assert OpenFor(ss[c], lab, generation, previous) && OpenFor(ss[c + 1], lab, generation, previous);
    assert StepAt(ss, es, c);
    if es[c].Destroy? {
      RunMovesTx(ss, es, c, lab);
    }
  }

  /** The transaction prepared by step `p` was committed by step `c`, under whichever fences. */
  ghost predicate PreparedAndCommitted(ss: seq<State>, es: seq<Event>, p: nat, c: nat, lab: Lab,
                                       generation: Generation)
    requires IsRun(ss, es)
  {
    && p < c < |es| && IsRecord(es[p], lab) && IsRecord(es[c], lab)
    && PreparesAt(ss[p], es[p], lab, es[p].fence.generation, generation)
    && CommitsAt(ss[c], es[c], lab, es[c].fence.generation, generation)
    && forall m | p < m <= c :: OpenFor(ss[m], lab, generation, es[p].record.expected)
  }

  /** Every commit is of a transaction that some prepare opened. */
  lemma CommitWasPrepared(ss: seq<State>, es: seq<Event>, c: nat, lab: Lab, g: nat, generation: Generation)
    returns (p: nat)
    requires IsRun(ss, es) && Durable(es) && c < |es| && CommitsAt(ss[c], es[c], lab, g, generation)
    ensures PreparedAndCommitted(ss, es, p, c, lab, generation)
  {
    p := PreparedEarlier(ss, es, c, lab, generation, ss[c].mem.records.transactions[lab].previous);
  }

  /** A prepare cannot fall inside another transaction that stays open. */
  lemma PreparesApart(ss: seq<State>, es: seq<Event>, p: nat, c: nat, lab: Lab, generation: Generation,
                      q: nat, g: nat, other: Generation)
    requires IsRun(ss, es) && PreparedAndCommitted(ss, es, p, c, lab, generation) && q < |es|
    requires PreparesAt(ss[q], es[q], lab, g, other)
    ensures q <= p || q > c
  {
    assert forall m | p < m <= c :: lab in ss[m].mem.records.transactions;
  }

  /**
   Two deployments of a lab prepared against the same generation are committed
   both, by whichever fences, only if the first was undone in between: by a
   recovery, a reopened commit, a destroy, a commit that went back to that
   generation, or a restart that read it from the topology file or the journal.
   */
  lemma OneCommitPerBase(ss: seq<State>, es: seq<Event>, p1: nat, c1: nat, p2: nat, c2: nat,
                         lab: Lab, g1: Generation, g2: Generation)
    returns (m: nat)
    requires IsRun(ss, es) && Durable(es) && p1 != p2 && c1 < c2
    requires PreparedAndCommitted(ss, es, p1, c1, lab, g1)
    requires PreparedAndCommitted(ss, es, p2, c2, lab, g2)
    requires es[p1].record.expected == es[p2].record.expected != g1
    ensures c1 < m < p2 && SetsCommitted(ss[m], es[m], lab, es[p2].record.expected)
    ensures CommittedOf(ss[c1 + 1], lab) == g1
    ensures CommittedOf(ss[m], lab) != es[p2].record.expected == CommittedOf(ss[m + 1], lab)
  {
    PreparesApart(ss, es, p1, c1, lab, g1, p2, es[p2].fence.generation, g2);
    PreparesApart(ss, es, p2, c2, lab, g2, p1, es[p1].fence.generation, g1);
    assert StepAt(ss, es, c1);
    CommitSetsCommitted(ss[c1], es[c1], lab, es[c1].fence.generation, g1);
    m := ReachedBy(ss, es, c1 + 1, p2, lab, es[p2].record.expected);
  }
}
