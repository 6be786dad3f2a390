/**
 Runs from the start of a node in which something comes between the check and
 the write of a solve transition.
 */
module SolveWitnesses {
  import opened Common
  import opened CoordinationState
  import opened TableSteps
  import opened RecordSteps
  import opened RequestSteps
  import opened CoordinationRun
  import opened Transactions
  import opened Deployments
  import opened SolveTransition
  import opened OrderWitnesses

  const SOLVED: Generation := "g"

  // ---------- a preserved transition ----------

  function FirstSolve(): Transaction { Opened(1, "", SOLVED, PruningPlan(None, 0)) }

  function FirstRead(lab: Lab, token: string, stale: bool): PreparedRead {
    PreparedRead(lab, Fence(token, 1), SOLVED, Solve, FirstSolve(), stale)
  }

  function FirstRecord(lab: Lab, token: string): SolveRecord {
    SolveRecordOf(FirstRead(lab, token, false), "node", "hash", ["container"])
  }

  /** A prepare request has read its transaction back. */
  lemma ReadRun(lab: Lab, token: string) returns (ss: seq<State>, es: seq<Event>, s: State)
    requires lab != "" && token != ""
    ensures RunTo(ss, es, s) && OpenAt(s, lab, Fence(token, 1), FirstSolve())
    ensures s.requests.prepares == map[0 := FirstRead(lab, token, false)] && s.requests.ops == map[]
    ensures s.topology == map[] && s.now == 0 && HighWater(s.mem.table, lab) == 1
    ensures s.leases == map[lab := Lease(Fence(token, 1), LeaseTTL(0))]
  {
    ss, es, s := ToLeased(lab, token);
    ss, es, s := ToPrepared(ss, es, s, lab, Fence(token, 1), "", SOLVED, PruningPlan(None, 0), 0);
    var e := OnRequests(ReadPrepared(0, lab, Fence(token, 1), SOLVED, Solve));
    var s' := Step(s, e);
    OneMore(ss, es, e, s');
    ss, es, s := ss + [s'], es + [e], s';
  }

  /** Journalling the record of the request changes only the transaction. */
  lemma ToRecorded(ss: seq<State>, es: seq<Event>, s: State, lab: Lab, token: string, tx: Transaction, stale: bool)
    returns (ss': seq<State>, es': seq<Event>, s': State)
    requires RunTo(ss, es, s) && OpenAt(s, lab, Fence(token, 1), tx) && tx.generation == SOLVED
    requires s.requests.prepares == map[0 := FirstRead(lab, token, stale)]
    ensures RunTo(ss', es', s') && OpenAt(s', lab, Fence(token, 1), tx.(solve := Some(FirstRecord(lab, token))))
    ensures FrontOf(s') == FrontOf(s) && s'.requests == s.requests && s'.topology == s.topology
    ensures |es'| == |es| + 1 && ss'[|es|] == s
    ensures es'[|es|] == OnRecords(lab, Fence(token, 1), Advance(SOLVED, RecordSolve(FirstRecord(lab, token))), true)
  {
    var e := OnRecords(lab, Fence(token, 1), Advance(SOLVED, RecordSolve(FirstRecord(lab, token))), true);
    assert Builds(s.requests.prepares[0], lab, Fence(token, 1), SOLVED, FirstRecord(lab, token));
    s' := Step(s, e);
    OneMore(ss, es, e, s');
    ss', es' := ss + [s'], es + [e];
  }

  // ---------- forward recovery ----------

  /** The lease lapsed and recovery took a fence of its own. */
  lemma LapsedRun(lab: Lab, token: string) returns (ss: seq<State>, es: seq<Event>, s: State)
    requires lab != "" && token != ""
    ensures RunTo(ss, es, s) && lab !in s.requests.ops && lab in s.mem.records.transactions
    ensures s.mem.records.transactions[lab] == FirstSolve().(solve := Some(FirstRecord(lab, token)))
    ensures Accepts(FrontOf(s), lab, Fence(token, 2))
  {
    ss, es, s := ReadRun(lab, token);
    ss, es, s := ToRecorded(ss, es, s, lab, token, FirstSolve(), false);
    var e1, s1 := Tick(LeaseTTL(0)), s.(now := s.now + LeaseTTL(0));
    assert LiveLeases(s1.leases, s1.now) == map[];
    var e2 := Event.OnTable(AcquireRecovery(lab, token, 1, true, true));
    var s2 := Step(s1, e2);
    ss, es := TwoMore(ss, es, e1, s1, e2, s2);
    s := s2;
  }

  /** Forward recovery of a preserved transition: its prune is refused. */
  lemma ForwardRecoveryCannotPrune(lab: Lab, token: string) returns (ss: seq<State>, es: seq<Event>)
    requires lab != "" && token != ""
    ensures IsRun(ss, es) && Durable(es)
    ensures var s := ss[|es|];
            && lab in s.mem.records.transactions
            && var tx := s.mem.records.transactions[lab];
            && tx.phase == Phase.Applying && tx.solve == Some(FirstRecord(lab, token))
            && PruneEntitlement(tx, lab, "hash", "node", tx.plan.mode) == Refused(EarlierAttempt)
            && PruneEntitlement(tx.(fence := 1), lab, "hash", "node", tx.plan.mode) == Entitled(["container"])
  {
    var s := START;
    ss, es, s := LapsedRun(lab, token);
    ss, es, s := ToRecovering(ss, es, s, lab, Fence(token, 2), true, 0);
    var e := OnRecords(lab, Fence(token, 2), Refence(SOLVED), true);
    var s' := Step(s, e);
    OneMore(ss, es, e, s');
    ss, es := ss + [s'], es + [e];
  }

  // ---------- a record for an earlier transaction ----------

  /** The transaction was aborted and prepared again while the request preserves containers. */
  lemma PreparedAgainRun(lab: Lab, token: string) returns (ss: seq<State>, es: seq<Event>, s: State)
    requires lab != "" && token != ""
    ensures RunTo(ss, es, s) && OpenAt(s, lab, Fence(token, 1), Opened(1, "", SOLVED, PruningPlan(None, 1)))
    ensures s.requests.prepares == map[0 := FirstRead(lab, token, true)]
  {
    var f := Fence(token, 1);
    ss, es, s := ReadRun(lab, token);
    ss, es, s := ToRecovering(ss, es, s, lab, f, false, 0);
    ss, es, s := ToRolledBack(ss, es, s, lab, f, FirstSolve().(phase := Phase.Recovering));
    ss, es, s := ToPrepared(ss, es, s, lab, f, "", SOLVED, PruningPlan(None, 1), 0);
  }

  /** The request of an aborted transaction writes its record into the next one, and the prune refuses it. */
  lemma StaleRecordIsRefused(lab: Lab, token: string) returns (ss: seq<State>, es: seq<Event>)
    requires lab != "" && token != ""
    ensures IsRun(ss, es) && Durable(es) && |es| > 0 && RecordsStale(ss[|es| - 1], es[|es| - 1], lab)
    ensures var s := ss[|es|];
            && lab in s.mem.records.transactions
            && var tx := s.mem.records.transactions[lab];
            && tx.solve == Some(FirstRecord(lab, token)) && !RecordFits(lab, tx)
            && PruneEntitlement(tx, lab, "hash", "node", tx.plan.mode) == Refused(OtherMode)
  {
    var s := START;
    ss, es, s := PreparedAgainRun(lab, token);
    assert Builds(s.requests.prepares[0], lab, Fence(token, 1), SOLVED, FirstRecord(lab, token));
    ss, es, s := ToRecorded(ss, es, s, lab, token, Opened(1, "", SOLVED, PruningPlan(None, 1)), true);
  }

  // ---------- a check of a committed deployment ----------

  /** A committed platform deployment is applied again; the request that checks it goes on. */
  lemma CheckedRun(lab: Lab, token: string) returns (ss: seq<State>, es: seq<Event>, s: State)
    requires lab != "" && token != ""
    ensures RunTo(ss, es, s) && lab in s.requests.ops && s.requests.ops[lab].ApplyOp?
    ensures s.requests.ops[lab].fence == Fence(token, 1) && s.requests.ops[lab].read.generation == OLDER
    ensures OwnsTransaction(s.mem.records, lab, Accepts(FrontOf(s), lab, Fence(token, 1)), 1, OLDER)
    ensures s.mem.records.transactions[lab].committed && GenerationOf(s.mem.records, lab).committed == OLDER
    ensures HasRead(s, lab, Some(TopologyFile(OLDER, Platform, 0, [])))
  {
    ss, es, s := CommittedRun(lab, token);
    var e1, e2 := OnRequests(BeginApply(lab, Fence(token, 1), OLDER)), OnRequests(ReadStored(0, lab));
    var s1 := Step(s, e1);
    var s2 := Step(s1, e2);
    ss, es := TwoMore(ss, es, e1, s1, e2, s2);
    s := s2;
    assert s.requests.files[0] == FileRead(lab, Some(TopologyFile(OLDER, Platform, 0, [])));
  }

  /** The request then marks a pruning solve of the same generation without a record. */
  lemma CommittedCheckMarksUnpreserved(lab: Lab, token: string) returns (ss: seq<State>, es: seq<Event>)
    requires lab != "" && token != ""
    ensures IsRun(ss, es) && Durable(es) && |es| > 0 && StartsApplying(ss[|es| - 1], es[|es| - 1], lab)
    ensures ApplyRefused(ss[|es| - 1].mem.records.transactions[lab])
  {
    var s, f, file := START, Fence(token, 1), Some(TopologyFile(OLDER, Platform, 0, []));
    ss, es, s := CheckedRun(lab, token);
    RunKeepsTx(ss, es, |es|, lab);
    var bs := BreakingEvents(lab, f, OLDER, OLDER, file);
    var s1 := Step(s, bs[0]);
    var s2 := Step(s1, bs[1]);
    UnsureCheckCanBreak(s, lab, f, file, s1, s2);
    ss, es := TwoMore(ss, es, bs[0], s1, bs[1], s2);
    OneMore(ss, es, bs[2], Step(s2, bs[2]));
    ss, es := ss + [Step(s2, bs[2])], es + [bs[2]];
  }
}
