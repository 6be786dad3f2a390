/**
 Runs from the start of a node in which a request acts on a reading that is out
 of date: a second commit, a commit overtaken by another deployment, a rollback
 overtaken by a commit, and a rollback to an overlay that is being collected.
 */
module OrderWitnesses {
  import opened Common
  import opened CoordinationState
  import opened TableSteps
  import opened RecordSteps
  import opened RequestSteps
  import opened CoordinationRun
  import opened OverlayClaims
  import opened ClaimGuarantees
  import opened Agreement
  import opened TransactionRuns
  import opened GenerationRuns
  import opened Deployments

  const OLDER: Generation := "g1"
  const NEWER: Generation := "g2"

  /** A plain deployment over this topology file. */
  function PlatformPlan(stored: Option<TopologyFile>, vnis: seq<VNI>): Plan {
    Plan(stored, Platform, 0, false, false, vnis, Inventory("", []))
  }

  function FirstTx(token: string): Transaction {
    AppliedOf(Fence(token, 1), "", OLDER, PlatformPlan(None, []))
  }

  /** The first deployment is committed; a second commit request read it before. */
  lemma CommittedRun(lab: Lab, token: string) returns (ss: seq<State>, es: seq<Event>, s: State)
    requires lab != "" && token != ""
    ensures RunTo(ss, es, s) && s.disk == s.mem && s.requests.ops == map[]
    ensures OpenAt(s, lab, Fence(token, 1), FirstTx(token).(phase := Phase.Committed, committed := true))
    ensures GenerationOf(s.mem.records, lab).committed == OLDER
    ensures s.topology == map[lab := CommittedFile(FirstTx(token))]
    ensures s.requests.commits == map[1 := CommitRead(lab, Fence(token, 1), FirstTx(token))]
    ensures s.requests.files == map[0 := FileRead(lab, None)]
  {
    ss, es, s := ToLeased(lab, token);
    ss, es, s := ToReadTwice(ss, es, s, lab, Fence(token, 1), "", OLDER, PlatformPlan(None, []), 0, 1);
    ss, es, s := ToCommittedOnce(ss, es, s, lab, Fence(token, 1), FirstTx(token), 0);
  }

  /**
   Both commit requests commit under the same uninterrupted fence: the second
   finds the generation of the first, although the prepare compared against none.
   */
  lemma SecondCommitFindsItself(lab: Lab, token: string) returns (ss: seq<State>, es: seq<Event>)
    requires lab != "" && token != ""
    ensures IsRun(ss, es) && Durable(es) && |es| > 0
    ensures var k := |es| - 1;
            && CommitsAt(ss[k], es[k], lab, 1, OLDER) && CommittedOf(ss[k], lab) == OLDER
            && ss[k].mem.records.transactions[lab].previous == ""
  {
    var s;
    ss, es, s := CommittedRun(lab, token);
    ss, es, s := ToCommitBegun(ss, es, s, 1);
    var e := OnRecords(lab, Fence(token, 1), Commit(OLDER, None), true);
    OneMore(ss, es, e, Step(s, e));
    ss, es := ss + [Step(s, e)], es + [e];
  }

  /** When the save of the second commit fails, memory and journal disagree on whether it is committed. */
  lemma FailedSecondCommitSplits(lab: Lab, token: string) returns (ss: seq<State>, es: seq<Event>, s: State)
    requires lab != "" && token != ""
    ensures RunTo(ss, es, s) && lab in s.mem.records.transactions && lab in s.disk.records.transactions
    ensures !s.mem.records.transactions[lab].committed && CommittedOf(s, lab) == OLDER
    ensures s.disk.records.transactions[lab].committed && !Agrees(s, lab)
  {
    ss, es, s := CommittedRun(lab, token);
    ss, es, s := ToCommitBegun(ss, es, s, 1);
    var e := OnRecords(lab, Fence(token, 1), Commit(OLDER, None), false);
    var s' := Step(s, e);
    OneMore(ss, es, e, s');
    ss, es, s := ss + [s'], es + [e], s';
  }

  /** Another deployment is committed and finalized; the request of the first still waits. */
  lemma OvertakenRun(lab: Lab, token: string) returns (ss: seq<State>, es: seq<Event>, s: State)
    requires lab != "" && token != ""
    ensures RunTo(ss, es, s) && FreeAt(s, lab, Fence(token, 1), NEWER) && lab !in s.requests.ops
    ensures 1 in s.requests.commits && s.requests.commits[1] == CommitRead(lab, Fence(token, 1), FirstTx(token))
  {
    var f := Fence(token, 1);
    ss, es, s := CommittedRun(lab, token);
    ss, es, s := ToFinalized(ss, es, s, lab, f, FirstTx(token).(phase := Phase.Committed, committed := true));
    var plan := PlatformPlan(Some(CommittedFile(FirstTx(token))), []);
    ss, es, s := ToReadTwice(ss, es, s, lab, f, OLDER, NEWER, plan, 2, 3);
    var tx := AppliedOf(f, OLDER, NEWER, plan);
    ss, es, s := ToCommittedOnce(ss, es, s, lab, f, tx, 2);
    ss, es, s := ToFinalized(ss, es, s, lab, f, tx.(phase := Phase.Committed, committed := true));
  }

  /**
   The overtaken commit request puts its generation back into the topology file.
   No transaction is open, and a restart changes the committed generation.
   */
  lemma OvertakenCommitChangesGeneration(lab: Lab, token: string) returns (ss: seq<State>, es: seq<Event>)
    requires lab != "" && token != ""
    ensures IsRun(ss, es) && Durable(es) && |es| > 0 && es[|es| - 1] == Restart(true)
    ensures lab !in ss[|es| - 1].mem.records.transactions
    ensures CommittedOf(ss[|es| - 1], lab) == NEWER && CommittedOf(ss[|es|], lab) == OLDER
  {
    var s;
    ss, es, s := OvertakenRun(lab, token);
    ss, es, s := ToCommitBegun(ss, es, s, 1);
    var s' := Step(s, Restart(true));
    OneMore(ss, es, Restart(true), s');
    ss, es := ss + [s'], es + [Event.Restart(true)];
  }

  /** A rollback request tested the transaction, then it was committed, then the rollback starts. */
  lemma LateRollbackRun(lab: Lab, token: string) returns (ss: seq<State>, es: seq<Event>, s: State)
    requires lab != "" && token != ""
    ensures RunTo(ss, es, s) && Accepts(FrontOf(s), lab, Fence(token, 1)) && s.disk == s.mem
    ensures lab in s.requests.ops && lab in s.mem.records.transactions
    ensures var tx := s.mem.records.transactions[lab];
            && s.requests.ops[lab] == RollbackOp(Fence(token, 1), tx, Begun)
            && tx.committed && tx.generation == OLDER && tx.previous == "" && tx.plan.stored.None?
  {
    var f := Fence(token, 1);
    ss, es, s := ToLeased(lab, token);
    ss, es, s := ToReadTwice(ss, es, s, lab, f, "", OLDER, PlatformPlan(None, []), 0, 1);
    var e := OnRequests(ReadForRecovery(0, lab, f, false));
    var s1 := Step(s, e);
    OneMore(ss, es, e, s1);
    ss, es, s := ToCommittedOnce(ss + [s1], es + [e], s1, lab, f, FirstTx(token), 0);
    assert s.requests.recoveries[0] == RecoveryRead(lab, f, OLDER, false);
    StartRecovers(s, lab, f, false);
    e := OnRecords(lab, f, StartRecovery(OLDER, false), true);
    s1 := Step(s, e);
    OneMore(ss, es, e, s1);
    ss, es, s := ss + [s1], es + [e], s1;
  }

  /** When its save fails, the transaction is still committed and the committed generation is gone. */
  lemma FailedLateRollbackSplits(lab: Lab, token: string) returns (ss: seq<State>, es: seq<Event>, s: State)
    requires lab != "" && token != ""
    ensures RunTo(ss, es, s) && lab in s.mem.records.transactions && s.mem.records.transactions[lab].committed
    ensures s.mem.records.transactions[lab].generation == OLDER && CommittedOf(s, lab) == "" && !Agrees(s, lab)
  {
    ss, es, s := LateRollbackRun(lab, token);
    var e1, e2 := WriteTopology(lab), OnRecords(lab, Fence(token, 1), Recover(OLDER), false);
    var s1 := Step(s, e1);
    var s2 := Step(s1, e2);
    ss, es := TwoMore(ss, es, e1, s1, e2, s2);
    s := s2;
  }

  // ---------- a rollback to an overlay under collection ----------

  /** Table steps leave the records, the topology files and the requests alone. */
  ghost predicate OnlyTable(s: State, s': State) {
    s'.mem.records == s.mem.records && s'.topology == s.topology && s'.requests == s.requests
  }

  /** The lab reserves the overlay of its first deployment. */
  lemma ReservedRun(lab: Lab, token: string, x: VNI) returns (ss: seq<State>, es: seq<Event>, s: State)
    requires lab != "" && token != "" && x != 0
    ensures RunTo(ss, es, s) && FreeAt(s, lab, Fence(token, 1), "") && s.requests == NO_REQUESTS
    ensures s.topology == map[] && s.collecting == {}
    ensures x in s.mem.table.claims && HeldBy(s.mem.table.claims, lab, 1, x)
  {
    ss, es, s := ToLeased(lab, token);
    var req := Reservation([x], map[], {}, {}, {});
    var e := Event.OnTable(Reserve(lab, Fence(token, 1), req, true, true));
    ReservesIt(FrontOf(s), lab, Fence(token, 1), req, x);
    var s' := Step(s, e);
    OneMore(ss, es, e, s');
    ss, es, s := ss + [s'], es + [e], s';
  }

  lemma ReservesIt(v: Front, lab: Lab, f: Fence, req: Reservation, x: VNI)
    requires Accepts(v, lab, f) && v.leases.Keys == {lab} && v.table.claims == map[] && v.collecting == {} && x != 0
    requires req == Reservation([x], map[], {}, {}, {})
    ensures var o := ReserveStep(v, lab, f, req, true, true).outcome;
            && o.leases == v.leases && o.collecting == {} && HeldBy(o.table.claims, lab, f.generation, x)
  {
    assert LiveLeases(v.leases, v.now) == v.leases && CurrentClaims(v.table.claims, v.now) == map[];
    assert Expire(v) == v && Admitted(v, lab, f.generation, req);
    LegacyMembers(lab, req.owners, Wanted(req));
    AdoptedReservationHolds(v, lab, f, req, true, true);
  }

  /** A table event that keeps the leases, as one more step. */
  lemma OneMoreTable(ss: seq<State>, es: seq<Event>, s: State, te: TableEvent)
    returns (ss': seq<State>, es': seq<Event>, s': State)
    requires RunTo(ss, es, s) && (te.Promote? || te.CollectLive? || te.BeginCollection?)
    ensures RunTo(ss', es', s') && s' == Step(s, OnTable(te)) && OnlyTable(s, s') && s'.now == s.now
    ensures s'.leases == s.leases
  {
    s' := Step(s, Event.OnTable(te));
    OneMore(ss, es, Event.OnTable(te), s');
    ss', es' := ss + [s'], es + [Event.OnTable(te)];
  }

  /** The first deployment runs over the overlay `x`, with a live claim. */
  lemma OverlayRun(lab: Lab, token: string, x: VNI) returns (ss: seq<State>, es: seq<Event>, s: State)
    requires lab != "" && token != "" && x != 0
    ensures RunTo(ss, es, s) && FreeAt(s, lab, Fence(token, 1), OLDER) && s.requests.ops == map[]
    ensures s.collecting == {} && x in s.mem.table.claims
    ensures s.mem.table.claims[x].lab == lab && s.mem.table.claims[x].live
    ensures lab in s.topology && s.topology[lab] == TopologyFile(OLDER, Platform, 0, [x])
  {
    var f, plan := Fence(token, 1), PlatformPlan(None, [x]);
    var tx := AppliedOf(f, "", OLDER, plan);
    ss, es, s := ReservedRun(lab, token, x);
    ss, es, s := ToReadTwice(ss, es, s, lab, f, "", OLDER, plan, 0, 1);
    var v := FrontOf(s);
    PromotesIt(v, lab, f, x);
    ss, es, s := OneMoreTable(ss, es, s, Promote(lab, f, [x], true));
    ss, es, s := ToCommittedOnce(ss, es, s, lab, f, tx, 0);
    ss, es, s := ToFinalized(ss, es, s, lab, f, tx.(phase := Phase.Committed, committed := true));
  }

  lemma PromotesIt(v: Front, lab: Lab, f: Fence, x: VNI)
    requires Accepts(v, lab, f) && HeldBy(v.table.claims, lab, f.generation, x)
    ensures var o := PromoteStep(v, lab, f, [x], true);
            && o.leases == v.leases && o.collecting == v.collecting
            && x in o.table.claims && o.table.claims[x].lab == lab && o.table.claims[x].live
  {
    assert [x][1..] == [] && HeldPrefix(v.table.claims, lab, f.generation, [x]) == 1;
  }

  /** A scan from before the deployment drops its claim, and the overlay comes under collection. */
  lemma CollectedRun(lab: Lab, token: string, x: VNI) returns (ss: seq<State>, es: seq<Event>, s: State)
    requires lab != "" && token != "" && x != 0
    ensures RunTo(ss, es, s) && FreeAt(s, lab, Fence(token, 1), OLDER) && s.requests.ops == map[]
    ensures x in s.collecting && x !in s.mem.table.claims
    ensures lab in s.topology && s.topology[lab] == TopologyFile(OLDER, Platform, 0, [x])
  {
    ss, es, s := OverlayRun(lab, token, x);
    ss, es, s := OneMoreTable(ss, es, s, CollectLive({x}, {}, true));
    ss, es, s := OneMoreTable(ss, es, s, BeginCollection(x, "", false));
  }

  /**
   A run in which a lab with a committed topology over `x` is rolled back while
   `x` is being collected: the rollback writes the claim of `x` again, and the
   end of the collection deletes it, in memory and on disk.
   */
  lemma RollbackLosesCollectedClaim(lab: Lab, token: string, x: VNI) returns (ss: seq<State>, es: seq<Event>)
    requires lab != "" && token != "" && x != 0
    ensures IsRun(ss, es) && Durable(es) && |es| >= 2
    ensures Restores(es[|es| - 2], x) && EndsCollection(es[|es| - 1], x)
    ensures var s := ss[|es| - 1];
            && x in s.collecting && x in s.mem.table.claims && s.mem.table.claims[x].lab == lab
            && lab in s.mem.records.transactions && s.mem.records.transactions[lab].previous == OLDER
    ensures x !in ss[|es|].mem.table.claims && x !in ss[|es|].disk.table.claims
  {
    var f, s := Fence(token, 1), START;
    ss, es, s := CollectedRun(lab, token, x);
    var plan := PlatformPlan(Some(TopologyFile(OLDER, Platform, 0, [x])), []);
    ss, es, s := ToPrepared(ss, es, s, lab, f, OLDER, NEWER, plan, 2);
    ss, es, s := ToRecovering(ss, es, s, lab, f, false, 0);
    var e1, e2 := Event.OnTable(RestoreClaims(lab, f, [x], true)), Event.OnTable(EndCollection(x, "", true));
    var s1 := Step(s, e1);
    RestoresIt(s, lab, f, x, s1);
    ss, es := TwoMore(ss, es, e1, s1, e2, Step(s1, e2));
  }

  lemma RestoresIt(s: State, lab: Lab, f: Fence, x: VNI, s1: State)
    requires Restorable(s.requests, lab, f, [x]) && x in s.collecting
    requires s1 == Step(s, OnTable(RestoreClaims(lab, f, [x], true)))
    ensures OnlyTable(s, s1) && s1.collecting == s.collecting
    ensures x in s1.mem.table.claims && s1.mem.table.claims[x].lab == lab
  {}
}
