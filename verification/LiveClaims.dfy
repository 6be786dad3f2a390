/**
 Live claims over whole runs: a lab keeps a live claim until it gives it up or
 is overruled, so an adopted overlay stays claimed, and a rollback to VNIs the
 lab kept takes nothing from a collection or from another lab.
 */
module LiveClaims {
  import opened Common
  import opened CoordinationState
  import opened TableSteps
  import opened RequestSteps
  import opened CoordinationRun
  import opened OverlayClaims
  import opened ClaimGuarantees
  import opened TransactionRuns

  predicate LiveIn(claims: Claims, lab: Lab, x: VNI) {
    x in claims && claims[x].lab == lab && claims[x].live
  }

  /** The lab's live claim is in memory and in the journal, and the VNI is not being collected. */
  predicate Kept(s: State, lab: Lab, x: VNI) {
    && LiveIn(s.mem.table.claims, lab, x) && LiveIn(s.disk.table.claims, lab, x)
    && x !in s.collecting
  }

  /**
   The step releases or destroys the claim, collects it because its lab was not
   protected at the last scan, or is another lab's rollback to the VNI.
   */
  predicate GivesUp(e: Event, lab: Lab, x: VNI) {
    match e
    case Destroy(l, _, _) => l == lab
    case OnTable(te) =>
      (match te
       case ReleaseClaims(l, vnis, _) => l == lab && (vnis == [] || x in vnis)
       case RestoreClaims(l, _, vnis, _) => l != lab && x in vnis
       case CollectLive(eligible, protected, _) => x in eligible && lab !in protected
       case _ => false)
    case _ => false
  }

  // ---------- every step ----------

  /** The claim is live in the table a step leaves and in the one it saved. */
  predicate OutcomeKeeps(o: Outcome, lab: Lab, x: VNI) {
    LiveIn(o.table.claims, lab, x) && (o.saved.Some? ==> LiveIn(o.saved.value.claims, lab, x))
  }

  lemma AdoptKeepsLive(e: Front, claims: Claims, changed: bool, l: Lab, g: nat, legacy: seq<VNI>,
                       req: Reservation, ok2: bool, lab: Lab, x: VNI)
    requires LiveIn(e.table.claims, lab, x) && LiveIn(claims, lab, x) && (x in legacy ==> l == lab)
    ensures OutcomeKeeps(AdoptLegacy(e, claims, changed, l, g, legacy, req, ok2).outcome, lab, x)
  {
    assert forall y :: y in legacy[..StampedPrefix(legacy, req.stampable)] ==> y in legacy;
  }

  lemma ReserveKeepsLive(v: Front, l: Lab, f: Fence, req: Reservation, ok1: bool, ok2: bool, lab: Lab, x: VNI)
    requires LiveIn(v.table.claims, lab, x)
    ensures OutcomeKeeps(ReserveStep(v, l, f, req, ok1, ok2).outcome, lab, x)
  {
    var e := Expire(v);
    if 0 in req.vnis || l == "" {
    } else if !Accepts(e, l, f) {
    } else if !Admitted(e, l, f.generation, req) {
    } else {
      AdmittedKeepsLive(e, e != v, l, f.generation, req, ok1, ok2, lab, x);
    }
  }

  lemma AdmittedKeepsLive(e: Front, expired: bool, l: Lab, g: nat, req: Reservation, ok1: bool, ok2: bool,
                          lab: Lab, x: VNI)
    requires l in e.leases && Admitted(e, l, g, req) && LiveIn(e.table.claims, lab, x)
    ensures OutcomeKeeps(ReserveAdmitted(e, expired, l, g, req, ok1, ok2).outcome, lab, x)
  {
    assert x in req.vnis ==> !Blocked(e, l, g, req, x);
    LegacyMembers(l, req.owners, Wanted(req));
    var wanted := Members(req.vnis);
    var claims := Reserved(e.table.claims, l, g, e.leases[l].until, wanted);
    AdoptKeepsLive(e, claims, expired || NeedsWrite(e.table.claims, g, wanted), l, g,
                   Legacy(l, req.owners, Wanted(req)), req, ok2, lab, x);
  }

  lemma TableKeepsLive(v: Front, te: TableEvent, lab: Lab, x: VNI)
    requires LiveIn(v.table.claims, lab, x) && !GivesUp(OnTable(te), lab, x)
    requires te.EndCollection? ==> te.vni != x
    ensures OutcomeKeeps(TableStep(v, te), lab, x)
  {
    if te.Reserve? {
      ReserveKeepsLive(v, te.lab, te.fence, te.req, te.ok1, te.ok2, lab, x);
    } else if te.Renew? {
      if !Accepts(Expire(v), te.lab, te.fence) {
      } else {
      }
    } else if te.Promote? {
      if !Accepts(v, te.lab, te.fence) {
      } else {
      }
    }
  }

  /** A live claim that nobody gives up lasts, restarts included. */
  lemma {:induction false} LiveClaimLasts(ss: seq<State>, es: seq<Event>, i: nat, k: nat, lab: Lab, x: VNI)
    requires IsRun(ss, es) && Durable(es) && i <= k < |ss| && Kept(ss[i], lab, x)
    requires forall m | i <= m < k :: !GivesUp(es[m], lab, x)
    ensures Kept(ss[k], lab, x)
    decreases k
  {
    if i < k {
      LiveClaimLasts(ss, es, i, k - 1, lab, x);
      assert StepAt(ss, es, k - 1);
      var s, e := ss[k - 1], es[k - 1];
      if e.OnTable? && ss[k] != s {
        TableKeepsLive(FrontOf(s), WithProtection(s, e.event), lab, x);
      }
      if e.OnTable? && e.event.Reserve? {
        ReserveKeepsCollecting(FrontOf(s), e.event);
      }
    }
  }

  // ---------- what follows ----------

  /** A rollback to `vnis` takes nothing from a collection or another lab. */
  ghost predicate RestoreIsSafe(v: Front, lab: Lab, vnis: seq<VNI>) {
    forall x :: x in vnis ==> x !in v.collecting && (x in v.table.claims ==> v.table.claims[x].lab == lab)
  }

  /** A rollback to VNIs whose live claims the lab never gave up is safe, however late it comes. */
  lemma RollbackToKeptClaimsIsSafe(ss: seq<State>, es: seq<Event>, i: nat, k: nat, lab: Lab, vnis: seq<VNI>)
    requires IsRun(ss, es) && Durable(es) && i <= k < |ss|
    requires forall x :: x in vnis ==> Kept(ss[i], lab, x)
    requires forall x, m | x in vnis && i <= m < k :: !GivesUp(es[m], lab, x)
    ensures RestoreIsSafe(FrontOf(ss[k]), lab, vnis)
  {
    forall x | x in vnis ensures Kept(ss[k], lab, x) {
      LiveClaimLasts(ss, es, i, k, lab, x);
    }
  }

  /** A commit journals the live claims its deployment promoted, so they are kept from then on. */
  lemma CommitKeepsPromoted(s: State, e: Event, lab: Lab, g: nat, generation: Generation, x: VNI)
    requires CommitsAt(s, e, lab, g, generation) && LiveIn(s.mem.table.claims, lab, x) && x !in s.collecting
    ensures Kept(Step(s, e), lab, x)
  {}

  /** A granted reservation saved the live claims of the aliases it stamped. */
  lemma StampedIsSaved(v: Front, t: TableEvent, x: VNI)
    requires t.Reserve?
    requires var r := ReserveStep(v, t.lab, t.fence, t.req, t.ok1, t.ok2); r.granted && x in r.stamped
    ensures var o := TableStep(v, t);
            && LiveIn(o.table.claims, t.lab, x) && o.saved == Some(o.table) && x !in o.collecting
  {
    StampedAliasesAreClaimed(v, t.lab, t.fence, t.req, t.ok1, t.ok2);
    StampedExactly(v, t.lab, t.fence, t.req, t.ok1, t.ok2);
    if !AdoptionSucceeds(t.lab, t.req) {
      FailedReservationRestoresClaims(v, t.lab, t.fence, t.req, t.ok1, t.ok2);
    } else {
      AdoptedOutcome(v, t.lab, t.fence, t.req, t.ok1, t.ok2);
      LegacyMembers(t.lab, t.req.owners, Wanted(t.req));
      assert x in t.req.vnis && !Blocked(Expire(v), t.lab, t.fence.generation, t.req, x);
      ReserveKeepsCollecting(v, t);
    }
  }

  /**
   An alias stamped by a granted reservation has a live claim of the lab in
   memory and in the journal until the claim is given up.
   */
  lemma AdoptedStaysClaimed(ss: seq<State>, es: seq<Event>, i: nat, k: nat, x: VNI)
    requires IsRun(ss, es) && Durable(es) && i < k < |ss| && es[i].OnTable? && es[i].event.Reserve?
    requires var t := es[i].event;
             var r := ReserveStep(FrontOf(ss[i]), t.lab, t.fence, t.req, t.ok1, t.ok2);
             r.granted && x in r.stamped
    requires forall m | i < m < k :: !GivesUp(es[m], es[i].event.lab, x)
    ensures Kept(ss[k], es[i].event.lab, x)
  {
    assert StepAt(ss, es, i);
    StampedIsSaved(FrontOf(ss[i]), es[i].event, x);
    LiveClaimLasts(ss, es, i + 1, k, es[i].event.lab, x);
  }
}
