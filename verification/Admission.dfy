/**
 Who gets a VNI: when a reservation is granted and what it then claims, and
 which overlays are collected.
 */
module Admission {
  import opened Common
  import opened CoordinationState
  import opened TableSteps
  import opened RecordSteps
  import opened CoordinationRun
  import opened OverlayClaims
  import opened ClaimGuarantees

  // ---------- reservations ----------

  /** An overlay that exists without an owner. */
  predicate Ownerless(req: Reservation, x: VNI) { x in req.owners && req.owners[x] == "" }

  /** A claim that is live, has no deadline or has not reached it. */
  predicate Current(c: Claim, now: nat) { c.live || c.until == 0 || now < c.until }

  /** Nobody else has the VNI: no collection, no overlay of another lab and no current claim stands against it. */
  predicate Available(v: Front, lab: Lab, f: Fence, req: Reservation, x: VNI) {
    && x !in v.collecting
    && (x in req.owners ==> req.owners[x] == lab || (req.owners[x] == "" && x in req.proven))
    && (x in v.table.claims && Current(v.table.claims[x], v.now) ==>
          && v.table.claims[x].lab == lab
          && (v.table.claims[x].live || v.table.claims[x].generation == f.generation))
  }

  /** The caller holds the unexpired lease of the lab. */
  predicate HoldsLease(v: Front, lab: Lab, f: Fence) {
    && lab != "" && f.token != "" && f.generation != 0
    && lab in v.leases && v.leases[lab].fence == f && v.now < v.leases[lab].until
  }

  /** Some lease or reservation is past its deadline. */
  ghost predicate HasExpired(v: Front) {
    || (exists l :: l in v.leases && v.leases[l].until <= v.now)
    || (exists x :: x in v.table.claims && !Current(v.table.claims[x], v.now))
  }

  /** The VNI is live under this fence already. */
  predicate LiveUnder(v: Front, f: Fence, x: VNI) {
    x in v.table.claims && v.table.claims[x].live && v.table.claims[x].generation == f.generation
  }

  lemma ExpiryChanges(v: Front)
    ensures Expire(v) != v <==> HasExpired(v)
  {
    if l :| l in v.leases && v.leases[l].until <= v.now {
      assert l !in Expire(v).leases;
    } else if x :| x in v.table.claims && !Current(v.table.claims[x], v.now) {
      assert x !in Expire(v).table.claims;
    } else {
      assert Expire(v).leases == v.leases && Expire(v).table.claims == v.table.claims;
    }
  }

  lemma AdmittedExactlyWhen(v: Front, lab: Lab, f: Fence, req: Reservation)
    ensures Admitted(Expire(v), lab, f.generation, req) <==> forall x :: x in req.vnis ==> Available(v, lab, f, req, x)
  {
    forall x ensures Blocked(Expire(v), lab, f.generation, req, x) <==> !Available(v, lab, f, req, x) {}
  }

  lemma LegacyAreOwnerless(lab: Lab, req: Reservation)
    requires lab != ""
    ensures forall x :: x in Legacy(lab, req.owners, Wanted(req)) <==> x in req.vnis && Ownerless(req, x)
    ensures AdoptionSucceeds(lab, req) <==> forall x :: x in req.vnis && Ownerless(req, x) ==> x in req.stampable
  {
    LegacyMembers(lab, req.owners, Wanted(req));
  }

  lemma NoneAdopted(lab: Lab, req: Reservation)
    requires lab != ""
    ensures Members(Legacy(lab, req.owners, Wanted(req))) == {} <==> forall x :: x in req.vnis ==> !Ownerless(req, x)
  {
    LegacyAreOwnerless(lab, req);
    var legacy := Legacy(lab, req.owners, Wanted(req));
    if x :| x in req.vnis && Ownerless(req, x) {
      assert x in Members(legacy);
    } else {
      assert Members(legacy) == {};
    }
  }

  lemma ReachesExactlyWhen(v: Front, lab: Lab, f: Fence, req: Reservation, ok1: bool)
    ensures ReachesAdoption(v, lab, f, req, ok1) <==>
      && 0 !in req.vnis && HoldsLease(v, lab, f)
      && (forall x :: x in req.vnis ==> Available(v, lab, f, req, x))
      && (ok1 || (!HasExpired(v) && forall x :: x in req.vnis ==> LiveUnder(v, f, x)))
  {
    AdmittedExactlyWhen(v, lab, f, req);
    ExpiryChanges(v);
    if forall x :: x in req.vnis ==> LiveUnder(v, f, x) {
    } else {
      var x :| x in req.vnis && !LiveUnder(v, f, x);
      assert x in Members(req.vnis);
    }
  }

  /**
   A reservation is granted exactly when the caller holds the lease, every VNI
   is available and every ownerless overlay can be stamped, and the saves that
   are needed succeed.
   */
  lemma GrantedExactlyWhen(v: Front, lab: Lab, f: Fence, req: Reservation, ok1: bool, ok2: bool)
    ensures ReserveStep(v, lab, f, req, ok1, ok2).granted <==>
      && 0 !in req.vnis && HoldsLease(v, lab, f)
      && (forall x :: x in req.vnis ==> Available(v, lab, f, req, x))
      && (forall x :: x in req.vnis && Ownerless(req, x) ==> x in req.stampable)
      && (ok1 || (!HasExpired(v) && forall x :: x in req.vnis ==> LiveUnder(v, f, x)))
      && (ok2 || forall x :: x in req.vnis ==> !Ownerless(req, x))
  {
    ReachesExactlyWhen(v, lab, f, req, ok1);
    if 0 in req.vnis || lab == "" {
    } else {
      LegacyAreOwnerless(lab, req);
      if ReachesAdoption(v, lab, f, req, ok1) && AdoptionSucceeds(lab, req) {
        AdoptedOutcome(v, lab, f, req, ok1, ok2);
        NoneAdopted(lab, req);
      } else {
        FailedReservationRestoresClaims(v, lab, f, req, ok1, ok2);
      }
    }
  }

  /** The claim a VNI of a granted reservation has afterwards. */
  function GrantedClaim(v: Front, lab: Lab, f: Fence, req: Reservation, x: VNI): Claim
    requires lab in v.leases
  {
    if Ownerless(req, x) then Claim(lab, f.generation, 0, true)
    else if x in v.table.claims && v.table.claims[x].live then Claim(lab, f.generation, v.table.claims[x].until, true)
    else Claim(lab, f.generation, v.leases[lab].until, false)
  }

  /**
   A granted reservation stamps exactly the ownerless overlays, claims every VNI
   as pending with the deadline of the lease unless it is live already or was
   stamped, leaves every other current claim alone and is journalled when it
   changed something.
   */
  lemma GrantedClaims(v: Front, lab: Lab, f: Fence, req: Reservation, ok1: bool, ok2: bool)
    requires ReserveStep(v, lab, f, req, ok1, ok2).granted
    ensures var r := ReserveStep(v, lab, f, req, ok1, ok2);
            var claims := r.outcome.table.claims;
            && lab in v.leases
            && (forall x :: x in r.stamped <==> x in req.vnis && Ownerless(req, x))
            && (forall x :: x in req.vnis ==> x in claims && claims[x] == GrantedClaim(v, lab, f, req, x))
            && (forall x :: x !in req.vnis ==>
                  && (x in claims <==> x in v.table.claims && Current(v.table.claims[x], v.now))
                  && (x in claims ==> claims[x] == v.table.claims[x]))
            && (r.outcome.saved.Some? ==> r.outcome.saved.value == r.outcome.table)
            && (HasExpired(v) || (exists x :: x in req.vnis && (Ownerless(req, x) || !LiveUnder(v, f, x)))
                ==> r.outcome.saved.Some?)
  {
    GrantedExactlyWhen(v, lab, f, req, ok1, ok2);
    ReachesExactlyWhen(v, lab, f, req, ok1);
    LegacyAreOwnerless(lab, req);
    AdoptedOutcome(v, lab, f, req, ok1, ok2);
    GrantedIsSaved(v, lab, f, req, ok1, ok2);
    forall x | x in req.vnis ensures Available(v, lab, f, req, x) {}
  }

  /** What a granted answer means for every VNI of the request. */
  lemma GrantMeans(v: Front, lab: Lab, f: Fence, req: Reservation, ok1: bool, ok2: bool)
    ensures var r := ReserveStep(v, lab, f, req, ok1, ok2);
            r.granted ==> forall x | x in req.vnis ::
              && Available(v, lab, f, req, x) && (Ownerless(req, x) <==> x in r.stamped)
              && HeldBy(r.outcome.table.claims, lab, f.generation, x)
  {
    if ReserveStep(v, lab, f, req, ok1, ok2).granted {
      GrantedExactlyWhen(v, lab, f, req, ok1, ok2);
      GrantedClaims(v, lab, f, req, ok1, ok2);
    }
  }

  lemma GrantedIsSaved(v: Front, lab: Lab, f: Fence, req: Reservation, ok1: bool, ok2: bool)
    requires ReachesAdoption(v, lab, f, req, ok1) && AdoptionSucceeds(lab, req)
    requires ReserveStep(v, lab, f, req, ok1, ok2).granted
    ensures var r := ReserveStep(v, lab, f, req, ok1, ok2);
            && (r.outcome.saved.Some? ==> r.outcome.saved.value == r.outcome.table)
            && (HasExpired(v) || r.stamped != {} || (exists x :: x in req.vnis && !LiveUnder(v, f, x))
                ==> r.outcome.saved.Some?)
  {
    ExpiryChanges(v);
    AdoptedOutcome(v, lab, f, req, ok1, ok2);
    if x :| x in req.vnis && !LiveUnder(v, f, x) {
      assert x in Members(req.vnis);
    }
  }

  // ---------- collections ----------

  /** Nothing of the lab is in use: no records, topology, request, lease or claim. */
  predicate Unused(s: State, lab: Lab) {
    && lab !in s.mem.records.transactions
    && (lab in s.mem.records.generations ==> s.mem.records.generations[lab].prepared == "")
    && lab !in s.topology && lab !in s.requests.ops
    && (lab in s.leases ==> s.leases[lab].until <= s.now)
    && forall x :: x in s.mem.table.claims && s.mem.table.claims[x].lab == lab ==>
         !Current(s.mem.table.claims[x], s.now)
  }

  /** A collection begins exactly when the VNI has no claim and its owner is unknown or unused. */
  lemma CollectedExactlyWhen(s: State, x: VNI, owner: Lab, busy: bool)
    requires x !in s.collecting
    ensures var s' := Step(s, OnTable(BeginCollection(x, owner, busy)));
            && (x in s'.collecting <==>
                  x !in s.mem.table.claims && (owner == "" || (!busy && Unused(s, owner))))
            && s' == s.(collecting := s'.collecting) && s'.collecting <= s.collecting + {x}
  {}

  /**
   Over every run a VNI comes under collection only by a step that finds it
   without a claim and finds nothing of its owner in use.
   */
  lemma CollectionFindsUnused(ss: seq<State>, es: seq<Event>, i: nat, x: VNI)
    requires IsRun(ss, es) && i < |es| && x !in ss[i].collecting && x in ss[i + 1].collecting
    ensures es[i].OnTable? && es[i].event.BeginCollection? && es[i].event.vni == x
    ensures x !in ss[i].mem.table.claims
    ensures es[i].event.owner == "" || Unused(ss[i], es[i].event.owner)
    ensures BeginsCollection(ss[i], es[i], x)
  {
    assert StepAt(ss, es, i);
    var s, e := ss[i], es[i];
    if e.OnTable? {
      if e.event.Reserve? {
        ReserveKeepsCollecting(FrontOf(s), e.event);
      } else if e.event.BeginCollection? && e.event.vni == x {
        CollectedExactlyWhen(s, x, e.event.owner, e.event.busy);
      }
    }
  }
}
