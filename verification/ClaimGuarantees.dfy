/**
 What a controller can rely on about its VNI claims: a reservation survives as
 long as its fence does, a VNI under collection cannot be taken, and adopting
 ownerless overlays leaves the claim table and the kernel aliases in agreement.
 */
module ClaimGuarantees {
  import opened Common
  import opened CoordinationState
  import opened TableSteps
  import opened CoordinationRun
  import opened Fencing
  import opened OverlayClaims

  // ---------- reservations survive with their fence ----------

  /**
   The step does not release, destroy, roll back or garbage collect this claim,
   and no rollback of another lab writes over it.
   */
  predicate Spares(v: Front, e: Event, lab: Lab, x: VNI) {
    match e
    case Destroy(l, _, _) => l != lab
    case OnTable(te) => TableSpares(v, te, lab, x)
    case _ => true
  }

  predicate TableSpares(v: Front, te: TableEvent, lab: Lab, x: VNI) {
    match te
    case ReleaseClaims(l, vnis, _) => l != lab || (vnis != [] && x !in vnis)
    case RestoreClaims(l, _, vnis, _) => l != lab && x !in vnis
    case CollectLive(eligible, protected, _) =>
      !(x in v.table.claims && v.table.claims[x].live && x in eligible && lab !in protected)
    case _ => true
  }

  lemma ExpiryKeepsHeld(v: Front, lab: Lab, f: Fence, x: VNI)
    requires Lockstep(v) && Accepts(v, lab, f) && HeldBy(v.table.claims, lab, f.generation, x)
    ensures HeldBy(Expire(v).table.claims, lab, f.generation, x)
    ensures Expire(v).table.claims[x] == v.table.claims[x] && !Lapsed(v.table.claims[x], v.now)
  {
    assert InStep(v.leases, v.table.claims[x]);
  }

  lemma ReserveKeepsHeld(v: Front, l: Lab, f': Fence, req: Reservation, ok1: bool, ok2: bool,
                         lab: Lab, f: Fence, x: VNI)
    requires Lockstep(v) && Accepts(v, lab, f) && HeldBy(v.table.claims, lab, f.generation, x)
    ensures HeldBy(ReserveStep(v, l, f', req, ok1, ok2).outcome.table.claims, lab, f.generation, x)
  {
    var e := Expire(v);
    ExpiryKeepsHeld(v, lab, f, x);
    if 0 !in req.vnis && Accepts(e, l, f') && Admitted(e, l, f'.generation, req) {
      ReserveFrom(v, l, f', req, ok1, ok2);
      assert x in req.vnis ==> !Blocked(e, l, f'.generation, req, x);
    }
  }

  lemma LeaseKeepsHeld(v: Front, te: TableEvent, lab: Lab, f: Fence, x: VNI)
    requires Lockstep(v) && (te.Sweep? || te.Acquire? || te.AcquireRecovery? || te.Renew? || te.Release?)
    requires Accepts(v, lab, f) && HeldBy(v.table.claims, lab, f.generation, x)
    requires Accepts(FrontAfter(v, TableStep(v, te)), lab, f)
    ensures HeldBy(TableStep(v, te).table.claims, lab, f.generation, x)
  {
    ExpiryKeepsHeld(v, lab, f, x);
    if te.Renew? || te.Release? {
      if !Accepts(Expire(v), te.lab, te.fence) {
      } else if te.Renew? {
      } else {
      }
    }
  }

  lemma TableKeepsHeld(v: Front, te: TableEvent, disk: Table, lab: Lab, f: Fence, x: VNI)
    requires ClaimInv(v, disk) && TableSpares(v, te, lab, x) && Excluded(v, x)
    requires te.EndCollection? ==> te.vni in v.collecting
    requires Accepts(v, lab, f) && HeldBy(v.table.claims, lab, f.generation, x)
    requires Accepts(FrontAfter(v, TableStep(v, te)), lab, f)
    ensures HeldBy(TableStep(v, te).table.claims, lab, f.generation, x)
  {
    if te.Reserve? {
      ReserveKeepsHeld(v, te.lab, te.fence, te.req, te.ok1, te.ok2, lab, f, x);
    } else if te.Sweep? || te.Acquire? || te.AcquireRecovery? || te.Renew? || te.Release? {
      LeaseKeepsHeld(v, te, lab, f, x);
    } else {
      ExpiryKeepsHeld(v, lab, f, x);
    }
  }

  /** A fence accepted now and later was accepted all the time in between. */
  lemma AcceptedInBetween(ss: seq<State>, es: seq<Event>, i: nat, m: nat, k: nat, lab: Lab, f: Fence)
    requires IsRun(ss, es) && Durable(es) && i <= m <= k < |ss|
    requires Accepts(FrontOf(ss[i]), lab, f) && Accepts(FrontOf(ss[k]), lab, f)
    ensures Accepts(FrontOf(ss[m]), lab, f)
  {
    if !Accepts(FrontOf(ss[m]), lab, f) {
      StaleFenceStaysStale(ss, es, i, m, k, lab, f);
    }
  }

  lemma {:induction false} HeldWhileAccepted(ss: seq<State>, es: seq<Event>, i: nat, k: nat, lab: Lab, f: Fence, x: VNI)
    requires IsRun(ss, es) && Durable(es) && i <= k < |ss|
    requires Accepts(FrontOf(ss[i]), lab, f) && Accepts(FrontOf(ss[k]), lab, f)
    requires HeldBy(ss[i].mem.table.claims, lab, f.generation, x) && x !in ss[i].collecting
    requires forall m | i <= m < k :: Spares(FrontOf(ss[m]), es[m], lab, x)
    ensures HeldBy(ss[k].mem.table.claims, lab, f.generation, x) && x !in ss[k].collecting
    decreases k
  {
    if i < k {
      AcceptedInBetween(ss, es, i, k - 1, k, lab, f);
      HeldWhileAccepted(ss, es, i, k - 1, lab, f, x);
      RunKeepsClaims(ss, es, k - 1);
      assert StepAt(ss, es, k - 1);
      var s, e := ss[k - 1], es[k - 1];
      assert Spares(FrontOf(s), e, lab, x);
      if e.OnTable? && ss[k] != s {
        TableKeepsHeld(FrontOf(s), WithProtection(s, e.event), s.disk.table, lab, f, x);
      }
      RunKeepsExcluded(ss, es, k - 1, k, x);
    }
  }

  /**
   While its fence is accepted, a reservation that nobody undid is present, has
   not lapsed and carries the deadline of the lease if it is still pending; so
   the apply check passes and promotion makes every one of its VNIs live.
   */
  lemma ReservationsLastAsLongAsTheirFence(ss: seq<State>, es: seq<Event>, i: nat, k: nat,
                                           lab: Lab, f: Fence, vnis: seq<VNI>)
    requires IsRun(ss, es) && Durable(es) && i <= k < |ss|
    requires Accepts(FrontOf(ss[i]), lab, f) && Accepts(FrontOf(ss[k]), lab, f)
    requires forall x :: x in vnis ==>
      HeldBy(ss[i].mem.table.claims, lab, f.generation, x) && x !in ss[i].collecting
    requires forall x, m | x in vnis && i <= m < k :: Spares(FrontOf(ss[m]), es[m], lab, x)
    ensures var v := FrontOf(ss[k]);
            && ReservationsHold(Expire(v), lab, f, vnis)
            && (forall x :: x in vnis && !v.table.claims[x].live ==>
                  v.table.claims[x].until == v.leases[lab].until)
            && forall x :: x in vnis ==>
                 var claims := PromoteStep(v, lab, f, vnis, true).table.claims;
                 HeldBy(claims, lab, f.generation, x) && claims[x].live
  {
    var v := FrontOf(ss[k]);
    RunKeepsClaims(ss, es, k);
    forall x | x in vnis ensures HeldBy(v.table.claims, lab, f.generation, x) {
      HeldWhileAccepted(ss, es, i, k, lab, f, x);
    }
    forall x | x in vnis
      ensures HeldBy(Expire(v).table.claims, lab, f.generation, x) && !Lapsed(v.table.claims[x], v.now)
      ensures Expire(v).table.claims[x] == v.table.claims[x] && InStep(v.leases, v.table.claims[x])
    {
      ExpiryKeepsHeld(v, lab, f, x);
    }
    var n := HeldPrefix(v.table.claims, lab, f.generation, vnis);
    assert vnis[..|vnis|] == vnis;
    assert n == |vnis|;
  }

  // ---------- a released fence leaves nothing pending ----------

  /** No reservation of this fence generation is pending. */
  ghost predicate NonePending(claims: Claims, lab: Lab, g: nat) {
    forall x :: x in claims ==> claims[x].live || claims[x].lab != lab || claims[x].generation != g
  }

  lemma ReleaseLeavesNone(v: Front, lab: Lab, f: Fence, ok: bool)
    requires Accepts(v, lab, f)
    ensures NonePending(ReleaseStep(v, lab, f, ok).table.claims, lab, f.generation)
    ensures lab !in ReleaseStep(v, lab, f, ok).leases
  {}

  lemma ReserveKeepsNone(v: Front, l: Lab, f: Fence, req: Reservation, ok1: bool, ok2: bool, lab: Lab, g: nat)
    requires NonePending(v.table.claims, lab, g) && (Accepts(Expire(v), l, f) ==> l != lab || f.generation != g)
    ensures NonePending(ReserveStep(v, l, f, req, ok1, ok2).outcome.table.claims, lab, g)
  {
    if 0 !in req.vnis && Accepts(Expire(v), l, f) && Admitted(Expire(v), l, f.generation, req) {
      ReserveFrom(v, l, f, req, ok1, ok2);
    }
  }

  lemma TableKeepsNone(v: Front, te: TableEvent, lab: Lab, g: nat)
    requires NonePending(v.table.claims, lab, g) && !te.Reserve?
    ensures NonePending(TableStep(v, te).table.claims, lab, g)
  {}

  lemma StepKeepsNone(s: State, e: Event, lab: Lab, g: nat)
    requires NonePending(s.mem.table.claims, lab, g) && !e.Restart? && Retired(s, lab, g)
    ensures NonePending(Step(s, e).mem.table.claims, lab, g)
  {
    if e.OnTable? {
      if e.event.Reserve? {
        if e.event.lab == lab && e.event.fence.generation == g { RetiredIsRefused(s, lab, e.event.fence); }
        ReserveKeepsNone(FrontOf(s), e.event.lab, e.event.fence, e.event.req, e.event.ok1, e.event.ok2, lab, g);
      } else {
        TableKeepsNone(FrontOf(s), WithProtection(s, e.event), lab, g);
      }
    }
  }

  lemma {:induction false} NonePendingSince(ss: seq<State>, es: seq<Event>, i: nat, k: nat, lab: Lab, g: nat)
    requires IsRun(ss, es) && Durable(es) && i <= k < |ss| && forall m | i <= m < k :: !es[m].Restart?
    requires Retired(ss[i], lab, g) && NonePending(ss[i].mem.table.claims, lab, g)
    ensures NonePending(ss[k].mem.table.claims, lab, g)
    decreases k
  {
    if i < k {
      NonePendingSince(ss, es, i, k - 1, lab, g);
      RetiredForever(ss, es, i, k - 1, lab, g);
      assert StepAt(ss, es, k - 1);
      StepKeepsNone(ss[k - 1], es[k - 1], lab, g);
    }
  }

  /** After its release no reservation of the fence is pending, for as long as the process lives. */
  lemma ReleasedLeavesNothing(ss: seq<State>, es: seq<Event>, i: nat, k: nat, lab: Lab, f: Fence, ok: bool)
    requires IsRun(ss, es) && Durable(es) && i < k < |ss|
    requires es[i] == OnTable(Release(lab, f, ok)) && Accepts(FrontOf(ss[i]), lab, f)
    requires forall m | i < m < k :: !es[m].Restart?
    ensures NonePending(ss[k].mem.table.claims, lab, f.generation)
  {
    assert StepAt(ss, es, i);
    ReleaseLeavesNone(FrontOf(ss[i]), lab, f, ok);
    AcceptedOrRetired(ss, es, i, i + 1, lab, f);
    NonePendingSince(ss, es, i + 1, k, lab, f.generation);
  }

  // ---------- collection excludes reservation ----------

  lemma ReserveKeepsCollecting(v: Front, e: TableEvent)
    requires e.Reserve?
    ensures TableStep(v, e).collecting == v.collecting
  {
    if 0 !in e.req.vnis && Accepts(Expire(v), e.lab, e.fence) {
      ReserveLeavesRest(v, e.lab, e.fence, e.req, e.ok1, e.ok2);
    }
  }

  /** A request that names a VNI under collection is refused and claims nothing. */
  lemma ReservationRefused(v: Front, lab: Lab, f: Fence, req: Reservation, ok1: bool, ok2: bool, x: VNI)
    requires x in v.collecting && x in req.vnis
    ensures var r := ReserveStep(v, lab, f, req, ok1, ok2);
            && !r.granted && r.stamped == {}
            && forall y :: y in r.outcome.table.claims ==>
                 y in v.table.claims && r.outcome.table.claims[y] == v.table.claims[y]
  {
    var e := Expire(v);
    assert Blocked(e, lab, f.generation, req, x);
  }

  /** The step marks the VNI as being collected. */
  predicate BeginsCollection(s: State, e: Event, x: VNI) {
    && e.OnTable? && e.event.BeginCollection? && e.event.vni == x
    && CollectionAllowed(FrontOf(s), x, e.event.owner, e.event.busy || InUse(s, e.event.owner))
  }

  predicate EndsCollection(e: Event, x: VNI) {
    e.OnTable? && e.event.EndCollection? && e.event.vni == x
  }

  /** Nothing ends the collection of the VNI, and no rollback writes its claim. */
  ghost predicate KeepsCollecting(es: seq<Event>, i: nat, k: nat, x: VNI)
    requires i <= k <= |es|
  {
    forall m | i <= m < k :: !es[m].Restart? && !EndsCollection(es[m], x) && !Restores(es[m], x)
  }

  /**
   From the begin of a collection on, no claim of the VNI appears and no
   reservation of it is granted, whatever else the node does, until the
   collection ends or a rollback writes the claim back.
   */
  lemma {:induction false} NoClaimDuringCollection(ss: seq<State>, es: seq<Event>, i: nat, k: nat, x: VNI)
    requires IsRun(ss, es) && i < k < |ss|
    requires BeginsCollection(ss[i], es[i], x) && KeepsCollecting(es, i + 1, k, x)
    ensures x in ss[k].collecting && x !in ss[k].mem.table.claims
    decreases k
  {
    assert StepAt(ss, es, k - 1);
    if k > i + 1 {
      NoClaimDuringCollection(ss, es, i, k - 1, x);
      var s, e := ss[k - 1], es[k - 1];
      if e.OnTable? && e.event.Reserve? {
        ReserveKeepsCollecting(FrontOf(s), e.event);
      }
      RunKeepsExcluded(ss, es, k - 1, k, x);
    }
  }

  /** Ending such a collection lifts the fence and touches no claim, in memory or on disk. */
  lemma EndCollectionTouchesNoClaim(ss: seq<State>, es: seq<Event>, i: nat, n: nat, x: VNI)
    requires IsRun(ss, es) && i < n < |es|
    requires BeginsCollection(ss[i], es[i], x) && KeepsCollecting(es, i + 1, n, x) && EndsCollection(es[n], x)
    ensures ss[n + 1] == ss[n].(collecting := ss[n].collecting - {x})
  {
    assert StepAt(ss, es, n);
    NoClaimDuringCollection(ss, es, i, n, x);
  }

  /**
   Restoring the claims of a previous topology keeps every VNI excluded exactly
   when none of its VNIs is being collected, and takes no other lab's claim
   exactly when none of them is another lab's.
   */
  lemma RestoreIsSafeExactlyWhen(v: Front, lab: Lab, f: Fence, vnis: seq<VNI>, ok: bool)
    requires forall x :: Excluded(v, x)
    ensures var o := RestoreClaimsStep(v, lab, f, vnis, ok);
            && ((forall x :: Excluded(FrontAfter(v, o), x)) <==> forall x :: x in vnis ==> x !in v.collecting)
            && ((forall x :: x in v.table.claims && v.table.claims[x].lab != lab ==>
                   x in o.table.claims && o.table.claims[x] == v.table.claims[x])
                <==> forall x :: x in vnis && x in v.table.claims ==> v.table.claims[x].lab == lab)
  {
    var o := RestoreClaimsStep(v, lab, f, vnis, ok);
    forall x | x in vnis ensures x in o.table.claims && o.table.claims[x].lab == lab {}
    if forall x :: Excluded(FrontAfter(v, o), x) {
      forall x | x in vnis ensures x !in v.collecting {
        assert Excluded(FrontAfter(v, o), x);
      }
    }
    if forall x :: x in vnis ==> x !in v.collecting {
      forall x ensures Excluded(FrontAfter(v, o), x) {
        assert Excluded(v, x);
      }
    }
  }

  // ---------- adoption of ownerless overlays ----------

  /** Every ownerless overlay of the request can be stamped. */
  predicate AdoptionSucceeds(lab: Lab, req: Reservation) {
    forall x :: x in Legacy(lab, req.owners, Wanted(req)) ==> x in req.stampable
  }

  /** The aliases stamped before the first failure. */
  function StampedFirst(lab: Lab, req: Reservation): set<VNI> {
    var legacy := Legacy(lab, req.owners, Wanted(req));
    Members(legacy[..StampedPrefix(legacy, req.stampable)])
  }

  lemma PrefixIsAll(vnis: seq<VNI>, stampable: set<VNI>)
    ensures StampedPrefix(vnis, stampable) == |vnis| <==> forall x :: x in vnis ==> x in stampable
  {
    var n := StampedPrefix(vnis, stampable);
    if n < |vnis| { assert vnis[n] in vnis; }
  }

  /** The request passes its checks and the save of the reservation, if one is made, succeeds. */
  predicate ReachesAdoption(v: Front, lab: Lab, f: Fence, req: Reservation, ok1: bool) {
    var e := Expire(v);
    && 0 !in req.vnis
    && Accepts(e, lab, f)
    && Admitted(e, lab, f.generation, req)
    && (e != v || NeedsWrite(e.table.claims, f.generation, Members(req.vnis)) ==> ok1)
  }

  /**
   On every exit of a reservation an alias that is stamped in the kernel has a
   live claim of the lab under the caller's fence.
   */
  lemma StampedAliasesAreClaimed(v: Front, lab: Lab, f: Fence, req: Reservation, ok1: bool, ok2: bool)
    ensures var r := ReserveStep(v, lab, f, req, ok1, ok2);
            forall x :: x in r.stamped ==>
              x in r.outcome.table.claims && r.outcome.table.claims[x] == Claim(lab, f.generation, 0, true)
  {}

  /** What is left stamped: everything, or what could not be reverted after a failure. */
  lemma StampedExactly(v: Front, lab: Lab, f: Fence, req: Reservation, ok1: bool, ok2: bool)
    ensures ReserveStep(v, lab, f, req, ok1, ok2).stamped ==
            if !ReachesAdoption(v, lab, f, req, ok1) then {}
            else if AdoptionSucceeds(lab, req) then Members(Legacy(lab, req.owners, Wanted(req)))
            else StampedFirst(lab, req) - req.revertible
  {
    var legacy := Legacy(lab, req.owners, Wanted(req));
    PrefixIsAll(legacy, req.stampable);
    assert legacy[..|legacy|] == legacy;
  }

  /**
   When a check or the first save fails, or an alias cannot be stamped, every VNI
   whose alias is not left stamped is back to the claim expiry left it with.
   */
  lemma FailedReservationRestoresClaims(v: Front, lab: Lab, f: Fence, req: Reservation, ok1: bool, ok2: bool)
    requires 0 !in req.vnis && lab != ""
    requires !ReachesAdoption(v, lab, f, req, ok1) || !AdoptionSucceeds(lab, req)
    ensures var r := ReserveStep(v, lab, f, req, ok1, ok2); var e := Expire(v);
            && !r.granted
            && forall x :: x !in r.stamped ==>
                 && (x in r.outcome.table.claims <==> x in e.table.claims)
                 && (x in e.table.claims ==> r.outcome.table.claims[x] == e.table.claims[x])
  {
    PrefixIsAll(Legacy(lab, req.owners, Wanted(req)), req.stampable);
  }

  lemma AdoptedOutcome(v: Front, lab: Lab, f: Fence, req: Reservation, ok1: bool, ok2: bool)
    requires ReachesAdoption(v, lab, f, req, ok1) && AdoptionSucceeds(lab, req)
    ensures var r := ReserveStep(v, lab, f, req, ok1, ok2);
            var e := Expire(v);
            var legacy := Members(Legacy(lab, req.owners, Wanted(req)));
            && r.stamped == legacy
            && r.outcome.table.claims == Stamped(
                 Reserved(e.table.claims, lab, f.generation, e.leases[lab].until, Members(req.vnis)),
                 lab, f.generation, legacy)
            && (r.granted <==> (r.stamped == {} || ok2))
            && (r.granted && r.stamped != {} ==> r.outcome.saved == Some(r.outcome.table))
  {
    var legacy := Legacy(lab, req.owners, Wanted(req));
    PrefixIsAll(legacy, req.stampable);
    assert legacy[..|legacy|] == legacy;
  }

  /**
   Otherwise every VNI of the request is held by the fence in memory, the adopted
   ones live; the request succeeds unless saving the adoption failed.
   */
  lemma AdoptedReservationHolds(v: Front, lab: Lab, f: Fence, req: Reservation, ok1: bool, ok2: bool)
    requires ReachesAdoption(v, lab, f, req, ok1) && AdoptionSucceeds(lab, req)
    ensures var r := ReserveStep(v, lab, f, req, ok1, ok2);
            && (r.granted <==> (r.stamped == {} || ok2))
            && (forall x :: x in req.vnis ==> HeldBy(r.outcome.table.claims, lab, f.generation, x))
            && (forall x :: x !in req.vnis ==>
                  && (x in r.outcome.table.claims <==> x in Expire(v).table.claims)
                  && (x in r.outcome.table.claims ==> r.outcome.table.claims[x] == Expire(v).table.claims[x]))
            && (r.granted && r.stamped != {} ==> r.outcome.saved == Some(r.outcome.table))
  {
    var e := Expire(v);
    var claims := ReserveStep(v, lab, f, req, ok1, ok2).outcome.table.claims;
    AdoptedOutcome(v, lab, f, req, ok1, ok2);
    LegacyMembers(lab, req.owners, Wanted(req));
    forall x | x in req.vnis ensures HeldBy(claims, lab, f.generation, x) {
      assert !Blocked(e, lab, f.generation, req, x);
    }
  }
}
