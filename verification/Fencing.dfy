/**
 Fences over whole runs: the generations handed out for a lab strictly increase
 and a fence that stopped being accepted stays refused, across failed saves,
 expiry, release, destroy and restart.
 */
module Fencing {
  import opened Common
  import opened CoordinationState
  import opened TableSteps
  import opened CoordinationRun
  import opened Operations

  /** Every lease is covered by the high-water mark on disk, and memory is never behind disk. */
  ghost predicate MarksCover(v: Front, disk: Table) {
    && (forall lab :: HighWater(disk, lab) <= HighWater(v.table, lab))
    && (forall lab :: lab in v.leases ==>
          0 < v.leases[lab].fence.generation <= HighWater(disk, lab))
  }

  ghost predicate FenceInv(s: State) { MarksCover(FrontOf(s), s.disk.table) }

  /** The lease of `lab` is the one it was, or a new one above every earlier mark. */
  ghost predicate LeaseKeptOrFresh(s: State, s': State, lab: Lab) {
    lab in s'.leases ==>
      || (&& lab in s.leases
          && s'.leases[lab].fence == s.leases[lab].fence
          && (s'.leases[lab].until == s.leases[lab].until || s.now < s.leases[lab].until))
      || (&& s'.leases[lab].fence.generation == HighWater(s.mem.table, lab) + 1
          && s'.leases[lab].fence.generation == HighWater(s'.disk.table, lab))
  }

  /** What one step does to the fencing of one lab. */
  ghost predicate FenceMove(s: State, s': State, lab: Lab) {
    && s.now <= s'.now
    && HighWater(s.disk.table, lab) <= HighWater(s'.disk.table, lab) <= HighWater(s'.mem.table, lab)
    && LeaseKeptOrFresh(s, s', lab)
  }

  // ---------- lease and claim steps ----------

  /** A step that touches no high-water mark and no lease, except by expiry. */
  ghost predicate OutcomeKeepsFences(v: Front, o: Outcome) {
    && (o.leases == v.leases || o.leases == LiveLeases(v.leases, v.now))
    && o.table.highWater == v.table.highWater
    && (o.saved.Some? ==> o.saved.value.highWater == v.table.highWater)
  }

  predicate IsLeaseEvent(e: TableEvent) {
    e.Acquire? || e.AcquireRecovery? || e.Renew? || e.Release?
  }

  lemma ReserveKeepsFences(v: Front, lab: Lab, f: Fence, req: Reservation, ok1: bool, ok2: bool)
    ensures OutcomeKeepsFences(v, ReserveStep(v, lab, f, req, ok1, ok2).outcome)
  {
    var e := Expire(v);
    if 0 in req.vnis || lab == "" {
    } else if !Accepts(e, lab, f) {
    } else if !Admitted(e, lab, f.generation, req) {
    } else {
    }
  }

  lemma ClaimStepsKeepFences(v: Front, e: TableEvent)
    requires !IsLeaseEvent(e)
    ensures OutcomeKeepsFences(v, TableStep(v, e))
  {
    if e.Reserve? {
      ReserveKeepsFences(v, e.lab, e.fence, e.req, e.ok1, e.ok2);
    }
  }

  lemma IssueMoves(s: State, lab0: Lab, token: string, until: nat, ok: bool, lab: Lab)
    requires FenceInv(s) && lab0 !in LiveLeases(s.leases, s.now)
    ensures FenceMove(s, ApplyOutcome(s, Issue(Expire(FrontOf(s)), lab0, token, until, ok)), lab)
  {}

  lemma ReleaseMoves(s: State, lab0: Lab, f: Fence, ok: bool, lab: Lab)
    requires FenceInv(s)
    ensures FenceMove(s, ApplyOutcome(s, ReleaseStep(FrontOf(s), lab0, f, ok)), lab)
  {}

  lemma AcquireMoves(s: State, lab0: Lab, token: string, ttl: int, ok: bool, lab: Lab)
    requires FenceInv(s)
    ensures FenceMove(s, ApplyOutcome(s, AcquireStep(FrontOf(s), lab0, token, ttl, ok)), lab)
  {
    if lab0 !in Expire(FrontOf(s)).leases {
      IssueMoves(s, lab0, token, s.now + LeaseTTL(ttl), ok, lab);
    }
  }

  lemma AcquireRecoveryMoves(s: State, lab0: Lab, token: string, limit: nat, ok1: bool, ok2: bool, lab: Lab)
    requires FenceInv(s)
    ensures FenceMove(s, ApplyOutcome(s, AcquireRecoveryStep(FrontOf(s), lab0, token, limit, ok1, ok2)), lab)
  {
    if lab0 !in Expire(FrontOf(s)).leases {
      IssueMoves(s, lab0, token, s.now + limit, ok2, lab);
    }
  }

  lemma LeaseStepsMove(s: State, e: TableEvent, lab: Lab)
    requires FenceInv(s) && IsLeaseEvent(e)
    ensures FenceMove(s, ApplyOutcome(s, TableStep(FrontOf(s), e)), lab)
  {
    match e
    case Acquire(lab0, token, ttl, ok) => AcquireMoves(s, lab0, token, ttl, ok, lab);
    case AcquireRecovery(lab0, token, limit, ok1, ok2) =>
      AcquireRecoveryMoves(s, lab0, token, limit, ok1, ok2, lab);
    case Renew(lab0, f, ttl, ok) =>
    case Release(lab0, f, ok) => ReleaseMoves(s, lab0, f, ok, lab);
  }

  // ---------- every step ----------

  lemma TableEventMovesFences(s: State, te: TableEvent, lab: Lab)
    requires FenceInv(s)
    ensures FenceMove(s, Step(s, OnTable(te)), lab)
  {
    if IsLeaseEvent(te) {
      LeaseStepsMove(s, te, lab);
    } else {
      ClaimStepsKeepFences(FrontOf(s), WithProtection(s, te));
    }
  }

  lemma StepMovesFences(s: State, e: Event, lab: Lab)
    requires FenceInv(s) && Readable(e)
    ensures FenceMove(s, Step(s, e), lab)
  {
    if e.OnTable? {
      TableEventMovesFences(s, e.event, lab);
    }
  }

  lemma MovesKeepFenceInv(s: State, s': State)
    requires FenceInv(s) && forall lab :: FenceMove(s, s', lab)
    ensures FenceInv(s')
  {
    forall lab ensures HighWater(s'.disk.table, lab) <= HighWater(s'.mem.table, lab) {
      assert FenceMove(s, s', lab);
    }
    forall lab | lab in s'.leases
      ensures 0 < s'.leases[lab].fence.generation <= HighWater(s'.disk.table, lab)
    {
      assert FenceMove(s, s', lab);
    }
  }

  lemma {:induction false} RunKeepsFenceInv(ss: seq<State>, es: seq<Event>, n: nat)
    requires IsRun(ss, es) && Durable(es) && n < |ss|
    ensures FenceInv(ss[n])
  {
    if n > 0 {
      assert StepAt(ss, es, n - 1);
      RunKeepsFenceInv(ss, es, n - 1);
      var s, s' := ss[n - 1], ss[n];
      forall lab ensures FenceMove(s, s', lab) {
        StepMovesFences(s, es[n - 1], lab);
      }
      MovesKeepFenceInv(s, s');
    }
  }

  /** One step of a run, as a fence move. */
  lemma RunMoves(ss: seq<State>, es: seq<Event>, n: nat, lab: Lab)
    requires IsRun(ss, es) && Durable(es) && n < |es|
    ensures FenceInv(ss[n]) && FenceMove(ss[n], ss[n + 1], lab)
  {
    assert StepAt(ss, es, n);
    RunKeepsFenceInv(ss, es, n);
    StepMovesFences(ss[n], es[n], lab);
  }

  /** The fence of a recovery that holds the operation lease was handed out. */
  lemma {:induction false} RunKeepsIssued(ss: seq<State>, es: seq<Event>, n: nat, lab: Lab)
    requires IsRun(ss, es) && Durable(es) && n < |ss| && lab in ss[n].requests.ops
    requires ss[n].requests.ops[lab].RollbackOp? || ss[n].requests.ops[lab].ForwardOp?
    ensures WasIssued(ss[n].disk.table, lab, ss[n].requests.ops[lab].fence.generation)
  {
    if n > 0 {
      RunMoves(ss, es, n - 1, lab);
      assert StepAt(ss, es, n - 1);
      StepMovesOp(ss[n - 1], es[n - 1], lab);
      if lab in ss[n - 1].requests.ops {
        RunKeepsIssued(ss, es, n - 1, lab);
      }
    }
  }

  // ---------- generations handed out ----------

  /** The fence generation a step returns to its caller, if it returns one. */
  function Issued(s: State, e: Event): Option<(Lab, nat)> {
    if e.OnTable? then IssuedBy(FrontOf(s), e.event) else None
  }

  function IssuedBy(v: Front, e: TableEvent): Option<(Lab, nat)> {
    match e
    case Acquire(lab, _, _, ok) =>
      if lab != "" && lab !in Expire(v).leases && ok
      then Some((lab, HighWater(v.table, lab) + 1)) else None
    case AcquireRecovery(lab, _, _, ok1, ok2) =>
      if (Expire(v) == v || ok1) && lab !in Expire(v).leases && ok2
      then Some((lab, HighWater(v.table, lab) + 1)) else None
    case _ => None
  }

  lemma {:induction false} DiskMarkGrows(ss: seq<State>, es: seq<Event>, i: nat, j: nat, lab: Lab)
    requires IsRun(ss, es) && Durable(es) && i <= j < |ss|
    ensures HighWater(ss[i].disk.table, lab) <= HighWater(ss[j].disk.table, lab)
    decreases j
  {
    if i < j {
      DiskMarkGrows(ss, es, i, j - 1, lab);
      RunMoves(ss, es, j - 1, lab);
    }
  }

  /** The generations handed out for a lab strictly increase over the whole run. */
  lemma IssuedGenerationsIncrease(ss: seq<State>, es: seq<Event>, i: nat, j: nat, lab: Lab, g: nat, h: nat)
    requires IsRun(ss, es) && Durable(es) && i < j < |es|
    requires Issued(ss[i], es[i]) == Some((lab, g))
    requires Issued(ss[j], es[j]) == Some((lab, h))
    ensures g < h
  {
    assert StepAt(ss, es, i);
    DiskMarkGrows(ss, es, i + 1, j, lab);
    RunKeepsFenceInv(ss, es, j);
  }

  // ---------- fences that stopped being accepted ----------

  /** A fence generation below the mark whose lease is gone, superseded or out of time. */
  ghost predicate Retired(s: State, lab: Lab, g: nat) {
    && g <= HighWater(s.disk.table, lab)
    && (lab in s.leases ==>
          s.leases[lab].fence.generation != g || s.leases[lab].until <= s.now)
  }

  lemma RetiredIsRefused(s: State, lab: Lab, f: Fence)
    requires Retired(s, lab, f.generation)
    ensures !Accepts(FrontOf(s), lab, f)
  {}

  lemma MoveKeepsRetired(s: State, s': State, lab: Lab, g: nat)
    requires FenceInv(s) && FenceMove(s, s', lab)
    requires Retired(s, lab, g)
    ensures Retired(s', lab, g)
  {}

  lemma {:induction false} RetiredForever(ss: seq<State>, es: seq<Event>, j: nat, k: nat, lab: Lab, g: nat)
    requires IsRun(ss, es) && Durable(es) && j <= k < |ss|
    requires Retired(ss[j], lab, g)
    ensures Retired(ss[k], lab, g)
    decreases k
  {
    if j < k {
      RetiredForever(ss, es, j, k - 1, lab, g);
      RunMoves(ss, es, k - 1, lab);
      MoveKeepsRetired(ss[k - 1], ss[k], lab, g);
    }
  }

  lemma {:induction false} AcceptedOrRetired(ss: seq<State>, es: seq<Event>, i: nat, j: nat, lab: Lab, f: Fence)
    requires IsRun(ss, es) && Durable(es) && i <= j < |ss|
    requires Accepts(FrontOf(ss[i]), lab, f)
    ensures Accepts(FrontOf(ss[j]), lab, f) || Retired(ss[j], lab, f.generation)
    decreases j
  {
    if i < j {
      AcceptedOrRetired(ss, es, i, j - 1, lab, f);
      RunMoves(ss, es, j - 1, lab);
      if !Accepts(FrontOf(ss[j - 1]), lab, f) {
        MoveKeepsRetired(ss[j - 1], ss[j], lab, f.generation);
      }
    }
  }

  /** A fence accepted once and refused later is refused for the rest of the run. */
  lemma StaleFenceStaysStale(ss: seq<State>, es: seq<Event>, i: nat, j: nat, k: nat, lab: Lab, f: Fence)
    requires IsRun(ss, es) && Durable(es) && i <= j <= k < |ss|
    requires Accepts(FrontOf(ss[i]), lab, f) && !Accepts(FrontOf(ss[j]), lab, f)
    ensures !Accepts(FrontOf(ss[k]), lab, f)
  {
    AcceptedOrRetired(ss, es, i, j, lab, f);
    RetiredForever(ss, es, j, k, lab, f.generation);
    RetiredIsRefused(ss[k], lab, f);
  }

  // ---------- the unreadable journal ----------

  /** The next generation of every lab is above everything handed out before. */
  ghost predicate NextIsFresh(s: State) {
    forall lab :: HighWater(s.disk.table, lab) < HighWater(s.mem.table, lab) + 1
  }

  /**
   A restart keeps fence generations fresh exactly when it can read the journal
   or no lab was ever given a fence.
   */
  lemma RestartKeepsFreshness(s: State, readable: bool)
    requires FenceInv(s)
    ensures NextIsFresh(RestartStep(s, readable)) <==>
            (readable || forall lab :: HighWater(s.disk.table, lab) == 0)
  {
    var t := RestartStep(s, readable);
    if !readable && NextIsFresh(t) {
      forall lab ensures HighWater(s.disk.table, lab) == 0 {
        assert HighWater(t.disk.table, lab) < HighWater(t.mem.table, lab) + 1;
      }
    }
  }

  /** A lab is handed generation 1 twice when the journal cannot be read in between. */
  lemma UnreadableJournalReissues(lab: Lab, token: string) returns (ss: seq<State>, es: seq<Event>)
    requires lab != "" && token != ""
    ensures IsRun(ss, es) && !Durable(es) && |es| == 3
    ensures Issued(ss[0], es[0]) == Some((lab, 1)) && Issued(ss[2], es[2]) == Some((lab, 1))
  {
    var s0 := START;
    var e := Event.OnTable(Acquire(lab, token, 0, true));
    es := [e, Event.Restart(false), e];
    var s1 := Step(s0, es[0]);
    var s2 := Step(s1, es[1]);
    ss := [s0, s1, s2, Step(s2, es[2])];
    assert StepAt(ss, es, 0) && StepAt(ss, es, 1) && StepAt(ss, es, 2);
    assert !Readable(es[1]);
  }
}
