/**
 The coordination methods of the node agent. Every method is proved to make
 exactly the step of the coordination machine it stands for; `Abs` is the state
 of that machine. A method on the transaction records makes the record part of
 its step; where a request stands is kept by the methods on requests. Whether a
 save succeeds and what the kernel answers are parameters; a loop over a map
 takes its keys in any order.
 */
module CoordinationServer {
  import opened Common
  import opened CoordinationState
  import opened TableSteps
  import opened RecordSteps
  import opened RequestSteps
  import opened CoordinationRun
  import opened ServerHelpers
  import OverlayClaims
  import opened Admission

  class Server {
    var now: nat
    var mutations: map<Lab, Lease>
    var gcCollecting: set<VNI>
    var fenceHighWater: map<Lab, nat>
    var overlayClaims: Claims
    var generations: map<Lab, GenerationState>
    var transactions: map<Lab, Transaction>
    var inventories: map<Lab, Inventory>
    var overlayLineage: map<Lab, map<VNI, Generation>>
    var disk: Journal
    var topology: map<Lab, TopologyFile>
    /** Where the requests in progress stand. */
    ghost var requests: Requests

    ghost function TableNow(): Table
      reads this
    {
      Table(fenceHighWater, overlayClaims)
    }

    ghost function RecordsNow(): Records
      reads this
    {
      Records(generations, transactions, inventories, overlayLineage)
    }

    ghost function Abs(): State
      reads this
    {
      State(now, mutations, gcCollecting, Journal(TableNow(), RecordsNow()), disk, topology, requests)
    }

    function FrontNow(): (v: Front)
      reads this
      ensures v == FrontOf(Abs())
    {
      Front(now, mutations, Table(fenceHighWater, overlayClaims), gcCollecting)
    }

    constructor ()
      ensures Init(Abs())
    {
      now, mutations, gcCollecting, fenceHighWater, overlayClaims := 0, map[], {}, map[], map[];
      generations, transactions, inventories, overlayLineage := map[], map[], map[], map[];
      disk, topology, requests := EMPTY_JOURNAL, map[], NO_REQUESTS;
    }

    method Tick(elapsed: nat)
      modifies this
      ensures Abs() == old(Abs()).(now := old(now) + elapsed)
    {
      now := now + elapsed;
    }

    /** Writes memory to the journal; a failed write leaves the journal alone. */
    method Save(ok: bool)
      modifies this`disk
      ensures disk == if ok then Journal(TableNow(), RecordsNow()) else old(disk)
    {
      if ok {
        disk := Journal(Table(fenceHighWater, overlayClaims),
                        Records(generations, transactions, inventories, overlayLineage));
      }
    }

    // ---------- expiry ----------

    method ExpireLeases() returns (changed: bool)
      modifies this`mutations
      ensures mutations == LiveLeases(old(mutations), now)
      ensures changed <==> mutations != old(mutations)
    {
      changed := false;
      var todo := mutations.Keys;
      while todo != {}
        invariant todo <= old(mutations).Keys
        invariant forall x :: x in mutations <==>
          x in old(mutations) && (x in todo || now < old(mutations)[x].until)
        invariant forall x :: x in mutations ==> mutations[x] == old(mutations)[x]
        invariant changed <==> mutations != old(mutations)
        decreases todo
      {
        var lab :| lab in todo;
        todo := todo - {lab};
        if mutations[lab].until <= now {
          mutations := mutations - {lab};
          changed := true;
        }
      }
    }

    method ExpireClaims() returns (changed: bool)
      modifies this`overlayClaims
      ensures overlayClaims == CurrentClaims(old(overlayClaims), now)
      ensures changed <==> overlayClaims != old(overlayClaims)
    {
      changed := false;
      var todo := overlayClaims.Keys;
      while todo != {}
        invariant todo <= old(overlayClaims).Keys
        invariant forall x :: x in overlayClaims <==>
          x in old(overlayClaims) && (x in todo || !Lapsed(old(overlayClaims)[x], now))
        invariant forall x :: x in overlayClaims ==> overlayClaims[x] == old(overlayClaims)[x]
        invariant changed <==> overlayClaims != old(overlayClaims)
        decreases todo
      {
        var vni :| vni in todo;
        todo := todo - {vni};
        var claim := overlayClaims[vni];
        if !claim.live && claim.until != 0 && claim.until <= now {
          overlayClaims := overlayClaims - {vni};
          changed := true;
        }
      }
    }

    method ExpireCoordination() returns (changed: bool)
      modifies this`mutations, this`overlayClaims
      ensures FrontNow() == Expire(old(FrontNow()))
      ensures changed <==> FrontNow() != old(FrontNow())
      ensures mutations == map l | l in old(mutations) && now < old(mutations)[l].until :: old(mutations)[l]
      ensures overlayClaims == map x | x in old(overlayClaims)
        && (old(overlayClaims)[x].live || old(overlayClaims)[x].until == 0 || now < old(overlayClaims)[x].until)
        :: old(overlayClaims)[x]
    {
      var leases := ExpireLeases();
      var claims := ExpireClaims();
      changed := leases || claims;
    }

    /** The fence check of a request, after an expiry that is saved when it changed something. */
    method RequireMutationFence(lab: Lab, fence: Fence, ok: bool) returns (accepted: bool)
      modifies this
      ensures Abs() == ApplyOutcome(old(Abs()), SweepStep(old(FrontNow()), ok))
      ensures accepted <==>
        Accepts(FrontNow(), lab, fence) && (FrontNow() == old(FrontNow()) || ok)
      ensures accepted <==>
        && lab != "" && fence.token != "" && fence.generation != 0
        && lab in old(mutations) && old(mutations)[lab].fence == fence && now < old(mutations)[lab].until
        && (ok || (mutations == old(mutations) && overlayClaims == old(overlayClaims)))
    {
      var changed := ExpireCoordination();
      if changed {
        Save(ok);
        if !ok { return false; }
      }
      accepted := Accepts(FrontNow(), lab, fence);
    }

    /** Whether every VNI is reserved by this fence, after the same expiry. */
    method RequireOverlayReservations(lab: Lab, fence: Fence, vnis: seq<VNI>, ok: bool) returns (held: bool)
      modifies this
      ensures vnis == [] ==> held && Abs() == old(Abs())
      ensures vnis != [] ==>
        && Abs() == ApplyOutcome(old(Abs()), SweepStep(old(FrontNow()), ok))
        && (held <==> ReservationsHold(FrontNow(), lab, fence, vnis)
                      && (FrontNow() == old(FrontNow()) || ok))
        && (held <==>
              && (ok || (mutations == old(mutations) && overlayClaims == old(overlayClaims)))
              && forall x | x in vnis ::
                   && x in old(overlayClaims) && old(overlayClaims)[x].lab == lab
                   && old(overlayClaims)[x].generation == fence.generation
                   && (old(overlayClaims)[x].live || old(overlayClaims)[x].until == 0
                       || now < old(overlayClaims)[x].until))
    {
      if vnis == [] { return true; }
      var changed := ExpireCoordination();
      if changed {
        Save(ok);
        if !ok { return false; }
      }
      var i := 0;
      while i < |vnis|
        invariant i <= |vnis|
        invariant forall j | 0 <= j < i ::
          HeldBy(overlayClaims, lab, fence.generation, vnis[j]) && !Lapsed(overlayClaims[vnis[j]], now)
      {
        var vni := vnis[i];
        if vni !in overlayClaims || overlayClaims[vni].lab != lab
           || overlayClaims[vni].generation != fence.generation {
          return false;
        }
        var claim := overlayClaims[vni];
        if !claim.live && claim.until != 0 && claim.until <= now { return false; }
        i := i + 1;
      }
      held := true;
    }

    // ---------- leases ----------

    /** Takes the next fence of a lab; the lease is dropped again when that cannot be saved. */
    method IssueFence(lab: Lab, token: string, until: nat, ok: bool) returns (fence: Option<Fence>)
      requires lab !in mutations
      modifies this`mutations, this`fenceHighWater, this`disk
      ensures var o := Issue(old(FrontNow()), lab, token, until, ok);
              mutations == o.leases && TableNow() == o.table
      ensures disk == if ok then Journal(TableNow(), RecordsNow()) else old(disk)
      ensures fence == if ok then Some(Fence(token, HighWater(old(TableNow()), lab) + 1)) else None
      ensures mutations == if ok then old(mutations)[lab := Lease(fence.value, until)] else old(mutations)
      ensures fenceHighWater == old(fenceHighWater)[lab :=
        (if lab in old(fenceHighWater) then old(fenceHighWater)[lab] else 0) + 1]
    {
      var generation := (if lab in fenceHighWater then fenceHighWater[lab] else 0) + 1;
      fenceHighWater := fenceHighWater[lab := generation];
      mutations := mutations[lab := Lease(Fence(token, generation), until)];
      Save(ok);
      if !ok {
        mutations := mutations - {lab};
        return None;
      }
      fence := Some(Fence(token, generation));
    }

    method AcquireMutationLease(lab: Lab, token: string, ttlSeconds: int, ok: bool) returns (fence: Option<Fence>)
      modifies this
      ensures Abs() == ApplyOutcome(old(Abs()), AcquireStep(old(FrontNow()), lab, token, ttlSeconds, ok))
      ensures fence.Some? <==> lab != "" && !(lab in old(mutations) && now < old(mutations)[lab].until) && ok
      ensures fence.Some? ==>
        && fence.value == Fence(token, HighWater(old(TableNow()), lab) + 1)
        && lab in mutations && mutations[lab] == Lease(fence.value, now + LeaseTTL(ttlSeconds))
        && (token != "" ==> Accepts(FrontNow(), lab, fence.value))
    {
      if lab == "" { return None; }
      var changed := ExpireCoordination();
      if lab in mutations { return None; }
      fence := IssueFence(lab, token, now + LeaseTTL(ttlSeconds), ok);
    }

    method AcquireRecoveryFence(lab: Lab, token: string, limit: nat, ok1: bool, ok2: bool)
      returns (fence: Option<Fence>)
      modifies this
      ensures Abs() == ApplyOutcome(old(Abs()), AcquireRecoveryStep(old(FrontNow()), lab, token, limit, ok1, ok2))
      ensures fence.Some? <==>
        && !(lab in old(mutations) && now < old(mutations)[lab].until)
        && (Expire(old(FrontNow())) == old(FrontNow()) || ok1) && ok2
      ensures fence.Some? ==>
        && fence.value == Fence(token, HighWater(old(TableNow()), lab) + 1)
        && lab in mutations && mutations[lab] == Lease(fence.value, now + limit)
    {
      var changed := ExpireCoordination();
      if changed {
        Save(ok1);
        if !ok1 { return None; }
      }
      if lab in mutations { return None; }
      fence := IssueFence(lab, token, now + limit, ok2);
    }

    /** Moves the pending reservations of a fence to a new deadline. */
    method ExtendPending(lab: Lab, generation: nat, until: nat) returns (changed: bool)
      modifies this`overlayClaims
      ensures overlayClaims == Extended(old(overlayClaims), lab, generation, until)
      ensures changed <==> HasPending(old(overlayClaims), lab, generation)
    {
      changed := false;
      var todo := overlayClaims.Keys;
      while todo != {}
        invariant todo <= overlayClaims.Keys == old(overlayClaims).Keys
        invariant forall x :: x in todo ==> overlayClaims[x] == old(overlayClaims)[x]
        invariant forall x :: x in overlayClaims && x !in todo ==>
          overlayClaims[x] == Extended(old(overlayClaims), lab, generation, until)[x]
        invariant changed <==> exists x ::
          x in old(overlayClaims) && x !in todo && PendingUnder(old(overlayClaims)[x], lab, generation)
        decreases todo
      {
        var vni :| vni in todo;
        todo := todo - {vni};
        var claim := overlayClaims[vni];
        if !claim.live && claim.lab == lab && claim.generation == generation {
          overlayClaims := overlayClaims[vni := claim.(until := until)];
          changed := true;
        }
      }
    }

    /** Drops the pending reservations of a fence. */
    method DropPending(lab: Lab, generation: nat) returns (changed: bool)
      modifies this`overlayClaims
      ensures overlayClaims == WithoutPending(old(overlayClaims), lab, generation)
      ensures changed <==> HasPending(old(overlayClaims), lab, generation)
    {
      changed := false;
      var todo := overlayClaims.Keys;
      while todo != {}
        invariant todo <= overlayClaims.Keys
        invariant forall x :: x in overlayClaims <==>
          x in old(overlayClaims) && (x in todo || !PendingUnder(old(overlayClaims)[x], lab, generation))
        invariant forall x :: x in overlayClaims ==> overlayClaims[x] == old(overlayClaims)[x]
        invariant changed <==> exists x ::
          x in old(overlayClaims) && x !in todo && PendingUnder(old(overlayClaims)[x], lab, generation)
        decreases todo
      {
        var vni :| vni in todo;
        todo := todo - {vni};
        var claim := overlayClaims[vni];
        if !claim.live && claim.lab == lab && claim.generation == generation {
          overlayClaims := overlayClaims - {vni};
          changed := true;
        }
      }
    }

    method RenewMutationLease(lab: Lab, fence: Fence, ttlSeconds: int, ok: bool) returns (renewed: bool)
      modifies this
      ensures Abs() == ApplyOutcome(old(Abs()), RenewStep(old(FrontNow()), lab, fence, ttlSeconds, ok))
      ensures renewed ==> Accepts(FrontNow(), lab, fence)
      ensures Accepts(old(FrontNow()), lab, fence) ==>
        && mutations == LiveLeases(old(mutations), now)[lab := Lease(fence, now + LeaseTTL(ttlSeconds))]
        && (forall x :: x in overlayClaims <==>
              && x in old(overlayClaims)
              && (old(overlayClaims)[x].live || old(overlayClaims)[x].until == 0 || now < old(overlayClaims)[x].until))
        && forall x :: x in overlayClaims ==>
             overlayClaims[x] == if old(overlayClaims)[x].lab == lab && !old(overlayClaims)[x].live
                                    && old(overlayClaims)[x].generation == fence.generation
                                 then old(overlayClaims)[x].(until := now + LeaseTTL(ttlSeconds))
                                 else old(overlayClaims)[x]
      ensures renewed <==>
        && Accepts(Expire(old(FrontNow())), lab, fence)
        && (ok || (Expire(old(FrontNow())) == old(FrontNow())
                   && !HasPending(old(overlayClaims), lab, fence.generation)))
    {
      var changed := ExpireCoordination();
      if !Accepts(FrontNow(), lab, fence) {
        if changed { Save(ok); }
        return false;
      }
      var until := now + LeaseTTL(ttlSeconds);
      mutations := mutations[lab := mutations[lab].(until := until)];
      var extended := ExtendPending(lab, fence.generation, until);
      renewed := true;
      if changed || extended {
        Save(ok);
        renewed := ok;
      }
    }

    method ReleaseMutationLease(lab: Lab, fence: Fence, ok: bool) returns (released: bool)
      modifies this
      ensures Abs() == ApplyOutcome(old(Abs()), ReleaseStep(old(FrontNow()), lab, fence, ok))
      ensures !Accepts(FrontNow(), lab, fence)
      ensures Accepts(old(FrontNow()), lab, fence) ==>
        && lab !in mutations && mutations == LiveLeases(old(mutations), now) - {lab}
        && forall x :: x in overlayClaims <==>
             && x in old(overlayClaims)
             && (old(overlayClaims)[x].live
                 || ((old(overlayClaims)[x].until == 0 || now < old(overlayClaims)[x].until)
                     && !(old(overlayClaims)[x].lab == lab && old(overlayClaims)[x].generation == fence.generation)))
      ensures forall x :: x in overlayClaims ==> x in old(overlayClaims) && overlayClaims[x] == old(overlayClaims)[x]
      ensures released <==>
        && Accepts(Expire(old(FrontNow())), lab, fence)
        && (ok || (Expire(old(FrontNow())) == old(FrontNow())
                   && !HasPending(old(overlayClaims), lab, fence.generation)))
    {
      var changed := ExpireCoordination();
      if !Accepts(FrontNow(), lab, fence) {
        if changed { Save(ok); }
        return false;
      }
      mutations := mutations - {lab};
      var dropped := DropPending(lab, fence.generation);
      released := true;
      if changed || dropped {
        Save(ok);
        released := ok;
      }
    }

    // ---------- reservations ----------

    /** Checks every VNI of a request and collects the ownerless overlays to adopt. */
    method CheckAdmission(lab: Lab, generation: nat, req: Reservation, vnis: seq<VNI>)
      returns (admitted: bool, legacy: seq<VNI>)
      ensures admitted <==> forall v :: v in vnis ==> !Blocked(FrontNow(), lab, generation, req, v)
      ensures admitted ==> legacy == Legacy(lab, req.owners, vnis)
      ensures admitted <==> forall x | x in vnis ::
        && x !in gcCollecting
        && (x in req.owners ==> req.owners[x] == lab || (req.owners[x] == "" && x in req.proven))
        && (x in overlayClaims ==>
              overlayClaims[x].lab == lab && (overlayClaims[x].live || overlayClaims[x].generation == generation))
    {
      legacy := [];
      var i := 0;
      while i < |vnis|
        invariant i <= |vnis|
        invariant forall j | 0 <= j < i :: !Blocked(FrontNow(), lab, generation, req, vnis[j])
        invariant legacy == Legacy(lab, req.owners, vnis[..i])
      {
        var vni := vnis[i];
        assert vni in vnis && vnis[..i + 1][..i] == vnis[..i];
        if vni in gcCollecting { return false, []; }
        if vni in req.owners && req.owners[vni] != lab {
          if req.owners[vni] == "" {
            if vni !in req.proven { return false, []; }
            legacy := legacy + [vni];
          } else {
            return false, [];
          }
        }
        if vni in overlayClaims {
          var claim := overlayClaims[vni];
          if claim.lab != lab { return false, []; }
          if !claim.live && claim.generation != generation { return false, []; }
        }
        i := i + 1;
      }
      assert vnis[..|vnis|] == vnis;
      admitted := true;
    }

    /** Writes a pending reservation for each VNI, or moves a live claim to this fence. */
    method WriteReservations(lab: Lab, generation: nat, until: nat, vnis: seq<VNI>) returns (changed: bool)
      modifies this`overlayClaims
      ensures overlayClaims == Reserved(old(overlayClaims), lab, generation, until, Members(vnis))
      ensures changed <==> NeedsWrite(old(overlayClaims), generation, Members(vnis))
    {
      changed := false;
      var i := 0;
      while i < |vnis|
        invariant i <= |vnis|
        invariant overlayClaims == Reserved(old(overlayClaims), lab, generation, until, Members(vnis[..i]))
        invariant changed <==> NeedsWrite(old(overlayClaims), generation, Members(vnis[..i]))
      {
        var vni := vnis[i];
        MembersNext(vnis, i);
        ReservedNext(old(overlayClaims), lab, generation, until, Members(vnis[..i]), vni);
        NeedsWriteNext(old(overlayClaims), lab, generation, until, Members(vnis[..i]), vni);
        if vni in overlayClaims && overlayClaims[vni].live {
          if overlayClaims[vni].generation != generation {
            overlayClaims := overlayClaims[vni := overlayClaims[vni].(generation := generation)];
            changed := true;
          }
        } else {
          overlayClaims := overlayClaims[vni := Claim(lab, generation, until, false)];
          changed := true;
        }
        i := i + 1;
      }
      assert vnis[..|vnis|] == vnis;
    }

    /** Puts the claims of a snapshot back, except those of `kept`. */
    method RestoreSnapshot(before: Snapshot, kept: set<VNI>)
      modifies this`overlayClaims
      ensures overlayClaims == Restored(old(overlayClaims), before, kept)
    {
      var todo := before.Keys;
      while todo != {}
        invariant todo <= before.Keys
        invariant forall v ::
          ClaimBefore(overlayClaims, v) ==
          if v in before && v !in todo && v !in kept then before[v] else ClaimBefore(old(overlayClaims), v)
        decreases todo
      {
        var vni :| vni in todo;
        todo := todo - {vni};
        if vni !in kept {
          if before[vni].Some? {
            overlayClaims := overlayClaims[vni := before[vni].value];
          } else {
            overlayClaims := overlayClaims - {vni};
          }
        }
      }
      SameClaims(overlayClaims, Restored(old(overlayClaims), before, kept));
    }

    /** Stamps the aliases of ownerless overlays until one cannot be stamped. */
    method AdoptLegacyOwners(lab: Lab, generation: nat, legacy: seq<VNI>, stampable: set<VNI>)
      returns (adopted: seq<VNI>)
      modifies this`overlayClaims
      ensures adopted == legacy[..StampedPrefix(legacy, stampable)]
      ensures overlayClaims == Stamped(old(overlayClaims), lab, generation, Members(adopted))
    {
      var i := 0;
      while i < |legacy| && legacy[i] in stampable
        invariant i <= |legacy|
        invariant forall j | 0 <= j < i :: legacy[j] in stampable
        invariant overlayClaims == Stamped(old(overlayClaims), lab, generation, Members(legacy[..i]))
      {
        MembersNext(legacy, i);
        StampedNext(old(overlayClaims), lab, generation, Members(legacy[..i]), legacy[i]);
        overlayClaims := overlayClaims[legacy[i] := Claim(lab, generation, 0, true)];
        i := i + 1;
      }
      adopted := legacy[..i];
    }

    /** Reverts adopted aliases, last first; an alias that stays keeps its live claim. */
    method RollbackLegacyAdoptions(lab: Lab, generation: nat, adopted: seq<VNI>, before: Snapshot,
                                   revertible: set<VNI>, ok: bool)
      returns (kept: set<VNI>)
      requires forall v :: v in adopted ==>
        v in overlayClaims && overlayClaims[v] == Claim(lab, generation, 0, true)
      modifies this`overlayClaims, this`disk
      ensures kept == Members(adopted) - revertible
      ensures overlayClaims == Restored(old(overlayClaims), before, kept)
      ensures disk == if ok then Journal(TableNow(), RecordsNow()) else old(disk)
    {
      kept := {};
      var i := |adopted|;
      while i > 0
        invariant 0 <= i <= |adopted|
        invariant kept == Members(adopted[i..]) - revertible
        invariant overlayClaims == old(overlayClaims) && disk == old(disk)
      {
        i := i - 1;
        var vni := adopted[i];
        assert adopted[i..] == [vni] + adopted[i + 1..];
        if vni !in revertible {
          kept := kept + {vni};
          overlayClaims := overlayClaims[vni := overlayClaims[vni].(lab := lab, live := true, until := 0)];
        }
      }
      assert adopted[0..] == adopted;
      RestoreSnapshot(before, kept);
      Save(ok);
    }

    /**
     The end of a reservation, once `claims` of the table before it were replaced:
     adopts the ownerless overlays, or puts the claims back when one refuses.
     */
    method AdoptReserved(ghost claims: Claims, lab: Lab, generation: nat, vnis: seq<VNI>, legacy: seq<VNI>,
                         before: Snapshot, req: Reservation, ok: bool)
      returns (granted: bool, stamped: set<VNI>)
      requires legacy == Legacy(lab, req.owners, vnis)
      requires before == map v | v in vnis :: ClaimBefore(claims, v)
      requires forall v :: v !in vnis ==> ClaimBefore(overlayClaims, v) == ClaimBefore(claims, v)
      modifies this`overlayClaims, this`disk
      ensures var e := old(FrontNow()).(table := old(TableNow()).(claims := claims));
              var r := AdoptLegacy(e, old(overlayClaims), false, lab, generation, legacy, req, ok);
              && overlayClaims == r.outcome.table.claims && granted == r.granted && stamped == r.stamped
              && disk == if r.outcome.saved.Some? then Journal(TableNow(), RecordsNow()) else old(disk)
    {
      var adopted := AdoptLegacyOwners(lab, generation, legacy, req.stampable);
      if |adopted| < |legacy| {
        OverlayClaims.LegacyMembers(lab, req.owners, vnis);
        assert forall v :: v in adopted ==> v in legacy;
        ghost var now1 := overlayClaims;
        stamped := RollbackLegacyAdoptions(lab, generation, adopted, before, req.revertible, ok);
        RestoredIsStamped(claims, now1, lab, generation, vnis, stamped);
        return false, stamped;
      }
      stamped, granted := Members(adopted), true;
      assert adopted == [] <==> stamped == {} by {
        assert adopted != [] ==> adopted[0] in stamped;
      }
      if |adopted| > 0 {
        Save(ok);
        granted := ok;
      }
    }

    /** Writes and saves the reservations, or puts the claims back when they cannot be saved. */
    method SaveReservations(expired: bool, lab: Lab, generation: nat, until: nat, vnis: seq<VNI>,
                            before: Snapshot, ok: bool)
      returns (kept: bool)
      requires before == map v | v in vnis :: ClaimBefore(overlayClaims, v)
      modifies this`overlayClaims, this`disk
      ensures var changed := expired || NeedsWrite(old(overlayClaims), generation, Members(vnis));
              && kept == (changed ==> ok)
              && overlayClaims == (if kept then Reserved(old(overlayClaims), lab, generation, until, Members(vnis))
                                   else old(overlayClaims))
              && disk == if changed && ok then Journal(TableNow(), RecordsNow()) else old(disk)
    {
      var written := WriteReservations(lab, generation, until, vnis);
      if expired || written {
        Save(ok);
        if !ok {
          RestoredIsBefore(old(overlayClaims), overlayClaims, vnis);
          RestoreSnapshot(before, {});
          return false;
        }
      }
      kept := true;
    }

    /** The writing half of a reservation that was admitted. */
    method ReserveChecked(expired: bool, lab: Lab, generation: nat, req: Reservation, vnis: seq<VNI>,
                          legacy: seq<VNI>, ok1: bool, ok2: bool)
      returns (granted: bool, stamped: set<VNI>)
      requires lab in mutations && vnis == Wanted(req) && legacy == Legacy(lab, req.owners, vnis)
      modifies this`overlayClaims, this`disk
      ensures var r := ReserveAdmitted(old(FrontNow()), expired, lab, generation, req, ok1, ok2);
              Abs() == ApplyOutcome(old(Abs()), r.outcome) && granted == r.granted && stamped == r.stamped
    {
      assert Members(vnis) == Members(req.vnis);
      var before := TakeSnapshot(overlayClaims, vnis);
      var kept := SaveReservations(expired, lab, generation, mutations[lab].until, vnis, before, ok1);
      if !kept { return false, {}; }
      granted, stamped := AdoptReserved(old(overlayClaims), lab, generation, vnis, legacy, before, req, ok2);
    }

    method ReserveOverlays(lab: Lab, fence: Fence, req: Reservation, ok1: bool, ok2: bool)
      returns (granted: bool, stamped: set<VNI>)
      modifies this
      ensures var r := ReserveStep(old(FrontNow()), lab, fence, req, ok1, ok2);
              Abs() == ApplyOutcome(old(Abs()), r.outcome) && granted == r.granted && stamped == r.stamped
      ensures granted ==> forall x | x in req.vnis ::
        && Available(old(FrontNow()), lab, fence, req, x) && (Ownerless(req, x) <==> x in stamped)
        && x in overlayClaims && overlayClaims[x].lab == lab && overlayClaims[x].generation == fence.generation
    {
      GrantMeans(old(FrontNow()), lab, fence, req, ok1, ok2);
      var wanted := SortedVNIs(req.vnis);
      if wanted.None? || lab == "" { return false, {}; }
      var vnis := wanted.value;
      var changed := ExpireCoordination();
      if !Accepts(FrontNow(), lab, fence) {
        if changed { Save(ok1); }
        return false, {};
      }
      var admitted, legacy := CheckAdmission(lab, fence.generation, req, vnis);
      if !admitted { return false, {}; }
      granted, stamped := ReserveChecked(changed, lab, fence.generation, req, vnis, legacy, ok1, ok2);
    }

    /** Makes the reservations of a fence live, up to the first VNI it did not reserve. */
    method PromoteOverlayReservations(lab: Lab, fence: Fence, vnis: seq<VNI>, ok: bool) returns (promoted: bool)
      modifies this
      ensures Abs() == ApplyOutcome(old(Abs()), PromoteStep(old(FrontNow()), lab, fence, vnis, ok))
      ensures promoted <==>
        && Accepts(old(FrontNow()), lab, fence)
        && (forall x | x in vnis :: x in old(overlayClaims) && old(overlayClaims)[x].lab == lab
                                    && old(overlayClaims)[x].generation == fence.generation)
        && (overlayClaims == old(overlayClaims) || ok)
      ensures promoted ==>
        && overlayClaims.Keys == old(overlayClaims).Keys
        && forall x :: x in overlayClaims ==>
             overlayClaims[x] == if x in vnis && !old(overlayClaims)[x].live
                                 then old(overlayClaims)[x].(live := true, until := 0) else old(overlayClaims)[x]
    {
      assert vnis[..|vnis|] == vnis;
      if !Accepts(FrontNow(), lab, fence) { return false; }
      var changed, all := PromoteClaims(lab, fence.generation, vnis);
      if !all { return false; }
      promoted := true;
      if changed {
        Save(ok);
        promoted := ok;
      }
    }

    method PromoteClaims(lab: Lab, generation: nat, vnis: seq<VNI>) returns (changed: bool, all: bool)
      modifies this`overlayClaims
      ensures var n := HeldPrefix(old(overlayClaims), lab, generation, vnis);
              && (all <==> n == |vnis|)
              && overlayClaims == Promoted(old(overlayClaims), Members(vnis[..n]))
      ensures changed <==> overlayClaims != old(overlayClaims)
    {
      changed, all := false, true;
      var i := 0;
      while i < |vnis| && all
        invariant i <= |vnis|
        invariant forall j | 0 <= j < i :: HeldBy(old(overlayClaims), lab, generation, vnis[j])
        invariant overlayClaims == Promoted(old(overlayClaims), Members(vnis[..i]))
        invariant changed <==> PendingAmong(old(overlayClaims), Members(vnis[..i]))
        invariant !all ==> i < |vnis| && !HeldBy(old(overlayClaims), lab, generation, vnis[i])
        decreases |vnis| - i, all
      {
        var vni := vnis[i];
        PromotedNext(old(overlayClaims), Members(vnis[..i]), vni);
        if vni !in overlayClaims || overlayClaims[vni].lab != lab || overlayClaims[vni].generation != generation {
          all := false;
        } else {
          MembersNext(vnis, i);
          var claim := overlayClaims[vni];
          if !claim.live {
            overlayClaims := overlayClaims[vni := claim.(live := true, until := 0)];
            changed := true;
          }
          i := i + 1;
        }
      }
      PromotionChanges(old(overlayClaims), Members(vnis[..i]));
    }

    /** Drops the claims of a lab, of the given VNIs or of all when none is given. */
    method DropClaims(lab: Lab, vnis: seq<VNI>) returns (changed: bool)
      modifies this`overlayClaims
      ensures overlayClaims == WithoutLab(old(overlayClaims), lab, vnis)
      ensures changed <==> overlayClaims != old(overlayClaims)
    {
      changed := false;
      var todo := overlayClaims.Keys;
      while todo != {}
        invariant todo <= overlayClaims.Keys
        invariant forall x :: x in overlayClaims <==>
          x in old(overlayClaims) &&
          (x in todo || !(old(overlayClaims)[x].lab == lab && (vnis == [] || x in vnis)))
        invariant forall x :: x in overlayClaims ==> overlayClaims[x] == old(overlayClaims)[x]
        invariant changed <==> overlayClaims != old(overlayClaims)
        decreases todo
      {
        var vni :| vni in todo;
        todo := todo - {vni};
        if overlayClaims[vni].lab == lab && (vnis == [] || vni in vnis) {
          overlayClaims := overlayClaims - {vni};
          changed := true;
        }
      }
    }

    method ReleaseOverlayClaims(lab: Lab, vnis: seq<VNI>, ok: bool) returns (released: bool)
      modifies this
      ensures Abs() == ApplyOutcome(old(Abs()), ReleaseClaimsStep(old(FrontNow()), lab, vnis, ok))
      ensures released <==> (overlayClaims == old(overlayClaims) || ok)
      ensures overlayClaims == map x | x in old(overlayClaims)
        && !(old(overlayClaims)[x].lab == lab && (vnis == [] || x in vnis)) :: old(overlayClaims)[x]
    {
      var changed := DropClaims(lab, vnis);
      released := true;
      if changed {
        Save(ok);
        released := ok;
      }
    }

    /** Drops the pending reservations of a fence outside `vnis`. */
    method DropUnwanted(lab: Lab, generation: nat, vnis: seq<VNI>)
      modifies this`overlayClaims
      ensures overlayClaims == WithoutUnwanted(old(overlayClaims), lab, generation, Members(vnis))
    {
      var todo := overlayClaims.Keys;
      while todo != {}
        invariant todo <= overlayClaims.Keys
        invariant forall x :: x in overlayClaims <==>
          x in old(overlayClaims) &&
          (x in todo || x in vnis || !PendingUnder(old(overlayClaims)[x], lab, generation))
        invariant forall x :: x in overlayClaims ==> overlayClaims[x] == old(overlayClaims)[x]
        decreases todo
      {
        var vni :| vni in todo;
        todo := todo - {vni};
        var claim := overlayClaims[vni];
        if claim.lab == lab && !claim.live && claim.generation == generation && vni !in vnis {
          overlayClaims := overlayClaims - {vni};
        }
      }
    }

    method RestoreOverlayClaims(lab: Lab, fence: Fence, vnis: seq<VNI>, ok: bool)
      modifies this
      ensures Abs() == ApplyOutcome(old(Abs()), RestoreClaimsStep(old(FrontNow()), lab, fence, vnis, ok))
      ensures forall x :: x in overlayClaims <==>
        || x in vnis
        || (x in old(overlayClaims) && (old(overlayClaims)[x].live || old(overlayClaims)[x].lab != lab
                                        || old(overlayClaims)[x].generation != fence.generation))
      ensures forall x :: x in overlayClaims ==>
        overlayClaims[x] == if x in vnis then Claim(lab, fence.generation, 0, true) else old(overlayClaims)[x]
    {
      DropUnwanted(lab, fence.generation, vnis);
      ghost var kept := overlayClaims;
      var i := 0;
      while i < |vnis|
        invariant i <= |vnis|
        invariant overlayClaims == Stamped(kept, lab, fence.generation, Members(vnis[..i]))
        invariant disk == old(disk) && FrontNow() == old(FrontNow()).(table := TableNow())
        invariant fenceHighWater == old(fenceHighWater) && RecordsNow() == old(RecordsNow())
        invariant topology == old(topology) && requests == old(requests)
      {
        MembersNext(vnis, i);
        StampedNext(kept, lab, fence.generation, Members(vnis[..i]), vnis[i]);
        overlayClaims := overlayClaims[vnis[i] := Claim(lab, fence.generation, 0, true)];
        i := i + 1;
      }
      assert vnis[..|vnis|] == vnis;
      Save(ok);
    }

    // ---------- overlay collection ----------

    /** `busy` stands for the topology, operation and hold records of the lab. */
    method LabProtected(lab: Lab, busy: bool) returns (protected: bool)
      ensures protected <==>
        lab != "" && (busy || RecordsProtect(RecordsNow(), lab) || Protected(FrontNow(), lab))
      ensures protected <==>
        && lab != ""
        && (|| busy || lab in transactions || (lab in generations && generations[lab].prepared != "")
            || (lab in mutations && now < mutations[lab].until)
            || exists x :: x in overlayClaims && overlayClaims[x].lab == lab
                 && (overlayClaims[x].live || overlayClaims[x].until == 0 || now < overlayClaims[x].until))
    {
      if lab == "" { return false; }
      if busy || lab in transactions { return true; }
      if lab in mutations && now < mutations[lab].until { return true; }
      if lab in generations && generations[lab].prepared != "" { return true; }
      var todo := overlayClaims.Keys;
      while todo != {}
        invariant todo <= overlayClaims.Keys
        invariant forall x :: x in overlayClaims && x !in todo && overlayClaims[x].lab == lab ==>
          Lapsed(overlayClaims[x], now)
        decreases todo
      {
        var vni :| vni in todo;
        todo := todo - {vni};
        var claim := overlayClaims[vni];
        if claim.lab == lab && (claim.live || claim.until == 0 || now < claim.until) { return true; }
      }
      protected := false;
    }

    method BeginOverlayCollection(vni: VNI, owner: Lab, busy: bool) returns (begun: bool)
      modifies this`gcCollecting
      ensures Abs() == ApplyOutcome(old(Abs()),
        BeginCollectionStep(old(FrontNow()), vni, owner, busy || RecordsProtect(RecordsNow(), owner)))
      ensures begun <==> vni in gcCollecting && vni !in old(gcCollecting)
      ensures begun <==>
        && vni !in old(gcCollecting) && vni !in overlayClaims
        && (owner == "" ||
            (&& !busy && owner !in transactions && (owner in generations ==> generations[owner].prepared == "")
             && (owner in mutations ==> mutations[owner].until <= now)
             && forall x :: x in overlayClaims && overlayClaims[x].lab == owner ==>
                  !overlayClaims[x].live && overlayClaims[x].until != 0 && overlayClaims[x].until <= now))
      ensures gcCollecting == if begun then old(gcCollecting) + {vni} else old(gcCollecting)
    {
      if vni in gcCollecting { return false; }
      var protected := LabProtected(owner, busy);
      if protected || vni in overlayClaims { return false; }
      gcCollecting := gcCollecting + {vni};
      begun := true;
    }

    method EndOverlayCollection(vni: VNI, owner: Lab, ok: bool)
      modifies this
      ensures Abs() == ApplyOutcome(old(Abs()), EndCollectionStep(old(FrontNow()), vni, owner, ok))
      ensures gcCollecting == old(gcCollecting) - {vni}
      ensures overlayClaims == if vni in old(overlayClaims) && (owner == "" || old(overlayClaims)[vni].lab == owner)
                               then old(overlayClaims) - {vni} else old(overlayClaims)
    {
      gcCollecting := gcCollecting - {vni};
      if vni !in overlayClaims || (owner != "" && overlayClaims[vni].lab != owner) { return; }
      overlayClaims := overlayClaims - {vni};
      Save(ok);
    }

    /** Drops the eligible live claims of labs that the last scan did not protect. */
    method DropStale(eligible: set<VNI>, protected: set<Lab>) returns (changed: bool)
      modifies this`overlayClaims
      ensures overlayClaims == WithoutStale(old(overlayClaims), eligible, protected)
      ensures changed <==> overlayClaims != old(overlayClaims)
    {
      changed := false;
      var todo := overlayClaims.Keys;
      while todo != {}
        invariant todo <= overlayClaims.Keys
        invariant forall x :: x in overlayClaims <==>
          x in old(overlayClaims) &&
          (x in todo || !(old(overlayClaims)[x].live && x in eligible && old(overlayClaims)[x].lab !in protected))
        invariant forall x :: x in overlayClaims ==> overlayClaims[x] == old(overlayClaims)[x]
        invariant changed <==> overlayClaims != old(overlayClaims)
        decreases todo
      {
        var vni :| vni in todo;
        todo := todo - {vni};
        var claim := overlayClaims[vni];
        if claim.live && claim.lab !in protected && vni in eligible {
          overlayClaims := overlayClaims - {vni};
          changed := true;
        }
      }
    }

    method ReleaseStaleLiveClaims(eligible: set<VNI>, protected: set<Lab>, ok: bool)
      modifies this
      ensures Abs() == ApplyOutcome(old(Abs()), CollectLiveStep(old(FrontNow()), eligible, protected, ok))
      ensures overlayClaims == map x | x in old(overlayClaims)
        && !(old(overlayClaims)[x].live && x in eligible && old(overlayClaims)[x].lab !in protected)
        :: old(overlayClaims)[x]
      ensures disk == old(disk) || disk == Journal(TableNow(), RecordsNow())
    {
      var changed := DropStale(eligible, protected);
      if changed { Save(ok); }
    }

    // ---------- generations and transactions ----------

    function GenerationNow(lab: Lab): (g: GenerationState)
      reads this
      ensures g == GenerationOf(RecordsNow(), lab)
    {
      if lab in generations then generations[lab] else NO_GENERATION
    }

    method PrepareGeneration(lab: Lab, fence: Fence, expected: Generation, generation: Generation, plan: Plan,
                             ok: bool)
      returns (prepared: bool)
      modifies this`generations, this`transactions, this`disk
      ensures Abs() == ApplyRecords(old(Abs()),
        PrepareStep(old(RecordsNow()), lab, Accepts(FrontNow(), lab, fence), fence.generation,
                    expected, generation, plan, ok))
      ensures prepared ==>
        OwnsTransaction(RecordsNow(), lab, Accepts(FrontNow(), lab, fence), fence.generation, generation)
      ensures prepared && lab !in old(transactions) ==>
        && ok && old(GenerationNow(lab)).committed == expected
        && transactions == old(transactions)[lab :=
             Transaction(generation, fence.generation, expected, plan, None, [], false, Phase.Prepared, false, false)]
        && generations == old(generations)[lab := old(GenerationNow(lab)).(prepared := generation)]
        && disk == Journal(TableNow(), RecordsNow())
      ensures lab !in old(transactions) ==>
        (prepared <==> ok && generation != "" && Accepts(FrontNow(), lab, fence)
                       && old(GenerationNow(lab)).committed == expected)
      ensures !prepared || lab in old(transactions) ==> transactions == old(transactions) && disk == old(disk)
    {
      if generation == "" || !Accepts(FrontNow(), lab, fence) { return false; }
      var state := GenerationNow(lab);
      if lab in transactions {
        return transactions[lab].generation == generation && transactions[lab].fence == fence.generation;
      }
      if state.committed != expected { return false; }
      transactions := transactions[lab := Opened(fence.generation, state.committed, generation, plan)];
      generations := generations[lab := state.(prepared := generation)];
      Save(ok);
      if !ok {
        WrittenBack(old(transactions), lab, transactions[lab], transactions[lab]);
        WrittenBack(old(generations), lab, generations[lab], state.(prepared := ""));
        transactions := transactions - {lab};
        generations := generations[lab := state.(prepared := "")];
      }
      prepared := ok;
    }

    // ---------- requests ----------

    /** A prepare request reads the topology file of its lab, before it takes the lock. */
    method ReadStored(id: nat, lab: Lab) returns (stored: Option<TopologyFile>)
      modifies this`requests
      ensures Abs() == Step(old(Abs()), OnRequests(RequestEvent.ReadStored(id, lab)))
      ensures requests.files[id] == FileRead(lab, stored)
      ensures stored.Some? <==> lab in topology
    {
      stored := if lab in topology then Some(topology[lab]) else None;
      requests := RequestStep(Abs(), RequestEvent.ReadStored(id, lab));
    }

    /**
     The start of an apply request: when the operation lease of the lab is free,
     it reads the transaction its fence owns and refuses a pruning solve nothing
     was preserved for.
     */
    method BeginApply(lab: Lab, fence: Fence, generation: Generation, free: bool) returns (tx: Option<Transaction>)
      requires free <==> lab !in requests.ops
      modifies this`requests
      ensures Abs() == Step(old(Abs()), OnRequests(RequestEvent.BeginApply(lab, fence, generation)))
      ensures tx.Some? <==>
        && free
        && OwnsTransaction(RecordsNow(), lab, Accepts(FrontNow(), lab, fence), fence.generation, generation)
        && !(&& transactions[lab].plan.prune && transactions[lab].plan.mode == Solve
             && (transactions[lab].plan.stored.Some? ==> transactions[lab].plan.stored.value.mode != Solve)
             && transactions[lab].solve.None?)
      ensures tx.Some? ==> lab in requests.ops && requests.ops[lab].ApplyOp? && requests.ops[lab].read == tx.value
    {
      ghost var after := RequestStep(Abs(), RequestEvent.BeginApply(lab, fence, generation));
      if !free || !Accepts(FrontNow(), lab, fence) { return None; }
      if lab !in transactions || transactions[lab].generation != generation
         || transactions[lab].fence != fence.generation {
        return None;
      }
      var read := transactions[lab];
      if PreservationRequired(read.plan) && read.solve.None? { return None; }
      requests := after;
      tx := Some(read);
    }

    /** A prepare request reads its transaction back and decides whether it has to preserve. */
    method ReadPrepared(id: nat, lab: Lab, fence: Fence, generation: Generation, mode: Mode)
      returns (preserve: bool)
      modifies this`requests
      ensures Abs() == Step(old(Abs()), OnRequests(RequestEvent.ReadPrepared(id, lab, fence, generation, mode)))
      ensures preserve <==>
        && lab in transactions && transactions[lab].plan.prune && mode == Solve
        && (transactions[lab].plan.stored.Some? ==> transactions[lab].plan.stored.value.mode != Solve)
      ensures preserve ==> forall node, hash, preserved ::
        Builds(requests.prepares[id], lab, fence, generation,
               SolveRecordOf(requests.prepares[id], node, hash, preserved))
    {
      if lab !in transactions { return false; }
      requests := RequestStep(Abs(), RequestEvent.ReadPrepared(id, lab, fence, generation, mode));
      preserve := PreservationRequired(transactions[lab].plan.(mode := mode));
    }

    /** A commit request reads its transaction, before it has the operation lease. */
    method TransactionForCommit(id: nat, lab: Lab, fence: Fence, generation: Generation)
      returns (tx: Option<Transaction>)
      modifies this`requests
      ensures Abs() == Step(old(Abs()), OnRequests(ReadForCommit(id, lab, fence, generation)))
      ensures tx.Some? <==>
        && Accepts(FrontNow(), lab, fence) && lab in transactions
        && transactions[lab].generation == generation && transactions[lab].fence == fence.generation
        && transactions[lab].applied
        && transactions[lab].phase != RollbackNeeded && transactions[lab].phase != Phase.Recovering
        && transactions[lab].phase != RollbackFailed
      ensures tx.Some? ==> tx.value == transactions[lab] && requests.commits[id] == CommitRead(lab, fence, tx.value)
    {
      ghost var after := RequestStep(Abs(), ReadForCommit(id, lab, fence, generation));
      if !Accepts(FrontNow(), lab, fence) || lab !in transactions { return None; }
      var read := transactions[lab];
      if read.generation != generation || read.fence != fence.generation || !read.applied
         || read.phase == RollbackNeeded || read.phase == Phase.Recovering || read.phase == RollbackFailed {
        return None;
      }
      requests := after;
      tx := Some(read);
    }

    /** With the lease, it goes on unless what it read was committed. */
    method BeginCommit(id: nat, read: CommitRead, free: bool) returns (goesOn: bool)
      requires id in requests.commits && requests.commits[id] == read && (free <==> read.lab !in requests.ops)
      modifies this`requests
      ensures Abs() == Step(old(Abs()), OnRequests(RequestEvent.BeginCommit(id)))
      ensures goesOn <==> free && !read.tx.committed
      ensures goesOn ==> read.lab in requests.ops && requests.ops[read.lab] == CommitOp(read.fence, read.tx, Begun)
    {
      requests := BeginCommitStep(requests, id);
      goesOn := free && !read.tx.committed;
    }

    /** The request that holds the lease writes the topology file of its transaction. */
    method PutCommittedTopology(lab: Lab, tx: Transaction)
      requires WritesTopology(requests, lab) && Target(requests.ops[lab]) == Some(CommittedFile(tx))
      modifies this`topology, this`requests
      ensures Abs() == Step(old(Abs()), WriteTopology(lab))
      ensures lab in topology && topology[lab].generation == tx.generation && topology[lab].vnis == tx.plan.vnis
      ensures !tx.plan.scoped ==> topology[lab].mode == tx.plan.mode && topology[lab].ungraded == tx.plan.ungraded
      ensures tx.plan.scoped && tx.plan.stored.Some? ==>
        topology[lab].mode == tx.plan.stored.value.mode && topology[lab].ungraded == tx.plan.stored.value.ungraded
      ensures tx.plan.scoped && tx.plan.stored.None? ==> topology[lab].mode == Platform && topology[lab].ungraded == 0
    {
      topology := topology[lab := CommittedFile(tx)];
      requests := Advanced(requests, lab, Written);
    }

    /** A rollback puts the topology file back that its prepare read, or removes it. */
    method RestoreTopology(lab: Lab, tx: Transaction)
      requires WritesTopology(requests, lab) && Target(requests.ops[lab]) == tx.plan.stored
      modifies this`topology, this`requests
      ensures Abs() == Step(old(Abs()), WriteTopology(lab))
      ensures Stored(topology, lab) == tx.plan.stored
    {
      if tx.plan.stored.Some? {
        topology := topology[lab := tx.plan.stored.value];
      } else {
        topology := topology - {lab};
      }
      requests := Advanced(requests, lab, Written);
    }

    /** A recovery request that has the lease reads its transaction again and marks it. */
    method BeginRecovery(lab: Lab, fence: Fence, generation: Generation, forward: bool, ok: bool)
      returns (tx: Option<Transaction>)
      requires Reachable(requests, lab, fence, StartRecovery(generation, forward))
      modifies this`transactions, this`disk, this`requests
      ensures Abs() == Step(old(Abs()), OnRecords(lab, fence, StartRecovery(generation, forward), ok))
      ensures tx.Some? <==>
        ok && HasTransaction(old(RecordsNow()), lab, Accepts(FrontNow(), lab, fence), generation)
      ensures tx.Some? ==> lab in requests.ops && requests.ops[lab].read == tx.value == transactions[lab]
      ensures tx.Some? ==> tx.value == old(transactions)[lab].(phase := Phase.Recovering)
    {
      if !Accepts(FrontNow(), lab, fence) { return None; }
      if lab !in transactions || transactions[lab].generation != generation { return None; }
      transactions := transactions[lab := transactions[lab].(phase := Phase.Recovering)];
      Save(ok);
      if !ok { return None; }
      tx := Some(transactions[lab]);
      requests := requests.(ops := requests.ops[lab := if forward then ForwardOp(fence, tx.value, Begun)
                                                       else RollbackOp(fence, tx.value, Begun)]);
    }

    /** What an update leaves of a transaction. */
    static ghost predicate UpdateMeans(was: Transaction, tx: Transaction, update: Update) {
      match update
      case MarkApplying => tx == was.(phase := Phase.Applying)
      case MarkApplied => tx == was.(applied := true, phase := Phase.Applied)
      case RecordSolve(record) => tx == was.(solve := Some(record))
      case RecordTouched(vnis, known) =>
        && tx == was.(touched := tx.touched, touchedKnown := was.touchedKnown || known)
        && StrictlyIncreasing(tx.touched)
        && forall x :: x in tx.touched <==> x != 0 && (x in was.touched || x in vnis)
    }

    /** The fenced record updates between prepare and commit. */
    method UpdateTransaction(lab: Lab, fence: Fence, generation: Generation, update: Update, ok: bool)
      returns (updated: bool)
      modifies this`transactions, this`disk
      ensures Abs() == ApplyRecords(old(Abs()),
        AdvanceStep(old(RecordsNow()), lab, Accepts(FrontNow(), lab, fence), fence.generation,
                    generation, update, ok))
      ensures updated <==>
        ok && OwnsTransaction(old(RecordsNow()), lab, Accepts(FrontNow(), lab, fence), fence.generation, generation)
      ensures updated ==>
        && disk == Journal(TableNow(), RecordsNow()) && lab in transactions
        && transactions == old(transactions)[lab := transactions[lab]]
        && UpdateMeans(old(transactions)[lab], transactions[lab], update)
    {
      if !Accepts(FrontNow(), lab, fence) { return false; }
      if lab !in transactions || transactions[lab].generation != generation
         || transactions[lab].fence != fence.generation {
        return false;
      }
      var tx := transactions[lab];
      match update {
        case MarkApplying => tx := tx.(phase := Phase.Applying);
        case MarkApplied => tx := tx.(applied := true, phase := Phase.Applied);
        case RecordSolve(record) => tx := tx.(solve := Some(record));
        case RecordTouched(vnis, known) =>
          var touched := AppendTouchedVNIs(tx.touched, vnis);
          tx := tx.(touched := touched, touchedKnown := tx.touchedKnown || known);
      }
      transactions := transactions[lab := tx];
      Save(ok);
      updated := ok;
    }

    method MarkTransactionPhase(lab: Lab, fence: Fence, generation: Generation, phase: Phase, ok: bool)
      returns (marked: bool)
      modifies this`transactions, this`disk
      ensures Abs() == ApplyRecords(old(Abs()),
        MarkPhaseStep(old(RecordsNow()), lab, Accepts(FrontNow(), lab, fence), generation, phase, ok))
      ensures marked <==>
        ok && HasTransaction(old(RecordsNow()), lab, Accepts(FrontNow(), lab, fence), generation)
      ensures marked ==>
        && transactions == old(transactions)[lab := old(transactions)[lab].(phase := phase)]
        && disk == Journal(TableNow(), RecordsNow())
    {
      if !Accepts(FrontNow(), lab, fence) { return false; }
      if lab !in transactions || transactions[lab].generation != generation { return false; }
      transactions := transactions[lab := transactions[lab].(phase := phase)];
      Save(ok);
      marked := ok;
    }

    /** Replaces the inventory and the lineage of a lab by those of a commit. */
    method RecordInventory(lab: Lab, tx: Transaction, inventory: Inventory)
      modifies this`inventories, this`overlayLineage
      ensures inventories == old(inventories)[lab := inventory]
      ensures overlayLineage == old(overlayLineage)[lab :=
        CommitLineage(tx, LineageOf(old(RecordsNow()), lab), inventory.vnis)]
    {
      inventories := inventories[lab := inventory];
      var before := if lab in overlayLineage then overlayLineage[lab] else map[];
      var lineage := RecordLineage(tx, before, inventory.vnis);
      overlayLineage := overlayLineage[lab := lineage];
    }

    /** Writes everything a commit records, without saving it. */
    method WriteCommit(lab: Lab, tx: Transaction, inventory: Option<Inventory>)
      modifies this`generations, this`transactions, this`inventories, this`overlayLineage
      ensures RecordsNow() == CommitRecords(old(RecordsNow()), lab, tx, inventory)
    {
      var state := GenerationNow(lab);
      var ancestors := AppendGenerationLineage(state.ancestors, state.committed, tx.generation);
      generations := generations[lab := GenerationState(tx.generation, "", ancestors)];
      if inventory.Some? {
        RecordInventory(lab, tx, inventory.value);
      }
      transactions := transactions[lab := tx.(committed := true)];
    }

    /** Writes and saves a commit, or puts back everything but the phase when it cannot be saved. */
    method SaveCommit(lab: Lab, tx: Transaction, inventory: Option<Inventory>, ok: bool)
      modifies this`generations, this`transactions, this`inventories, this`overlayLineage, this`disk
      ensures RecordsNow() ==
        if ok then CommitRecords(old(RecordsNow()), lab, tx, inventory)
        else GenerationWrittenBack(SetTransaction(old(RecordsNow()), lab, tx.(committed := false)), lab)
      ensures disk == if ok then Journal(TableNow(), RecordsNow()) else old(disk)
    {
      var oldState, oldInventories, oldLineage := GenerationNow(lab), inventories, overlayLineage;
      WriteCommit(lab, tx, inventory);
      Save(ok);
      if !ok {
        CommitPutBack(old(RecordsNow()), lab, tx, inventory, tx.(committed := false), oldState);
        transactions := transactions[lab := tx.(committed := false)];
        generations := generations[lab := oldState];
        inventories, overlayLineage := oldInventories, oldLineage;
      }
    }

    method FinishCommittedGeneration(lab: Lab, fence: Fence, generation: Generation, inventory: Option<Inventory>,
                                     ok: bool)
      returns (committed: bool)
      modifies this`generations, this`transactions, this`inventories, this`overlayLineage, this`disk
      ensures Abs() == ApplyRecords(old(Abs()),
        CommitStep(old(RecordsNow()), lab, Accepts(FrontNow(), lab, fence), fence.generation,
                   generation, inventory, ok))
      ensures committed <==>
        ok && CanCommit(old(RecordsNow()), lab, Accepts(FrontNow(), lab, fence), fence.generation, generation)
      ensures committed ==>
        && transactions == old(transactions)[lab :=
             old(transactions)[lab].(committed := true, phase := Phase.Committed)]
        && GenerationNow(lab).committed == generation && GenerationNow(lab).prepared == ""
        && inventories == (if inventory.Some? then old(inventories)[lab := inventory.value] else old(inventories))
        && disk == Journal(TableNow(), RecordsNow())
      ensures !committed ==>
        && GenerationNow(lab) == old(GenerationNow(lab)) && inventories == old(inventories)
        && overlayLineage == old(overlayLineage) && disk == old(disk)
        && (|| transactions == old(transactions)
            || (lab in old(transactions)
                && transactions == old(transactions)[lab :=
                     old(transactions)[lab].(committed := false, phase := Phase.Committed)]))
    {
      if !Accepts(FrontNow(), lab, fence) { return false; }
      if lab !in transactions || transactions[lab].generation != generation
         || transactions[lab].fence != fence.generation || !transactions[lab].applied {
        return false;
      }
      SaveCommit(lab, transactions[lab].(phase := Phase.Committed), inventory, ok);
      committed := ok;
    }

    method FinalizeCommittedGeneration(lab: Lab, fence: Fence, generation: Generation, ok: bool)
      returns (finalized: bool)
      modifies this`transactions, this`disk
      ensures Abs() == ApplyRecords(old(Abs()),
        FinalizeStep(old(RecordsNow()), lab, Accepts(FrontNow(), lab, fence), fence.generation, generation, ok))
      ensures finalized <==>
        && ok && OwnsTransaction(old(RecordsNow()), lab, Accepts(FrontNow(), lab, fence), fence.generation, generation)
        && old(transactions)[lab].committed
      ensures transactions == (if finalized then old(transactions) - {lab} else old(transactions))
      ensures disk == if finalized then Journal(TableNow(), RecordsNow()) else old(disk)
    {
      if !Accepts(FrontNow(), lab, fence) { return false; }
      if lab !in transactions || transactions[lab].generation != generation
         || transactions[lab].fence != fence.generation || !transactions[lab].committed {
        return false;
      }
      var tx := transactions[lab];
      transactions := transactions - {lab};
      Save(ok);
      if !ok {
        WrittenBack(old(transactions), lab, tx, tx);
        transactions := transactions[lab := tx];
      }
      finalized := ok;
    }

    // ---------- recovery ----------

    /** Puts the previous generation back; a failed save only keeps the transaction. */
    method WriteRecovered(lab: Lab, ok: bool)
      requires lab in transactions
      modifies this`generations, this`transactions, this`inventories, this`disk
      ensures RecordsNow() == RecoverStep(old(RecordsNow()), lab, true, old(transactions)[lab].generation, ok).records
      ensures disk == if ok then Journal(TableNow(), RecordsNow()) else old(disk)
    {
      var tx := transactions[lab];
      generations := generations[lab := GenerationNow(lab).(committed := tx.previous, prepared := "")];
      inventories := inventories[lab := tx.plan.prestate];
      transactions := transactions - {lab};
      Save(ok);
      if !ok {
        WrittenBack(old(transactions), lab, tx, tx);
        transactions := transactions[lab := tx];
      }
    }

    method FinishRecoveredGeneration(lab: Lab, fence: Fence, generation: Generation, ok: bool)
      returns (recovered: bool)
      modifies this`generations, this`transactions, this`inventories, this`disk
      ensures Abs() == ApplyRecords(old(Abs()),
        RecoverStep(old(RecordsNow()), lab, Accepts(FrontNow(), lab, fence), generation, ok))
      ensures recovered <==>
        ok && HasTransaction(old(RecordsNow()), lab, Accepts(FrontNow(), lab, fence), generation)
      ensures recovered ==>
        && transactions == old(transactions) - {lab}
        && inventories == old(inventories)[lab := old(transactions)[lab].plan.prestate]
        && generations == old(generations)[lab :=
             old(GenerationNow(lab)).(committed := old(transactions)[lab].previous, prepared := "")]
        && disk == Journal(TableNow(), RecordsNow())
      ensures !recovered ==> transactions == old(transactions) && disk == old(disk)
    {
      if !Accepts(FrontNow(), lab, fence) { return false; }
      if lab !in transactions || transactions[lab].generation != generation { return false; }
      WriteRecovered(lab, ok);
      recovered := ok;
    }

    method ReopenCommittedTransaction(lab: Lab, fence: Fence, generation: Generation, ok: bool)
      returns (open: bool)
      modifies this`generations, this`transactions, this`disk
      ensures Abs() == ApplyRecords(old(Abs()),
        ReopenStep(old(RecordsNow()), lab, Accepts(FrontNow(), lab, fence), generation, ok))
      ensures open <==>
        && HasTransaction(old(RecordsNow()), lab, Accepts(FrontNow(), lab, fence), generation)
        && (ok || !old(transactions)[lab].committed)
      ensures open ==>
        && HasTransaction(RecordsNow(), lab, Accepts(FrontNow(), lab, fence), generation)
        && !transactions[lab].committed
      ensures open && old(transactions)[lab].committed ==>
        && transactions == old(transactions)[lab :=
             old(transactions)[lab].(committed := false, phase := RollbackNeeded)]
        && GenerationNow(lab).committed == transactions[lab].previous && GenerationNow(lab).prepared == generation
    {
      if !Accepts(FrontNow(), lab, fence) { return false; }
      if lab !in transactions || transactions[lab].generation != generation { return false; }
      var before := transactions[lab];
      if !before.committed { return true; }
      var beforeState := GenerationNow(lab);
      generations := generations[lab := beforeState.(committed := before.previous, prepared := generation)];
      transactions := transactions[lab := before.(committed := false, phase := RollbackNeeded)];
      Save(ok);
      if !ok {
        WrittenBack(old(transactions), lab, transactions[lab], before);
        WrittenBack(old(generations), lab, generations[lab], beforeState);
        transactions := transactions[lab := before];
        generations := generations[lab := beforeState];
      }
      open := ok;
    }

    /** The step of forward recovery that takes the transaction over. */
    method RefenceTransaction(lab: Lab, fence: Fence, generation: Generation, ok: bool) returns (taken: bool)
      modifies this`transactions, this`disk
      ensures Abs() == ApplyRecords(old(Abs()),
        RefenceStep(old(RecordsNow()), lab, fence.generation, generation, ok))
      ensures taken <==> ok && HasTransaction(old(RecordsNow()), lab, true, generation)
      ensures taken ==>
        && transactions == old(transactions)[lab :=
             old(transactions)[lab].(fence := fence.generation, phase := Phase.Applying)]
        && disk == Journal(TableNow(), RecordsNow())
    {
      if lab !in transactions || transactions[lab].generation != generation { return false; }
      transactions := transactions[lab :=
        transactions[lab].(fence := fence.generation, phase := Phase.Applying)];
      Save(ok);
      taken := ok;
    }

    /** Writes a refreshed inventory and closes the committed transaction it settles. */
    method WriteRefreshed(lab: Lab, refreshed: Inventory, ok: bool)
      requires lab in inventories && inventories[lab].generation == refreshed.generation
      modifies this`generations, this`transactions, this`inventories, this`disk
      ensures RecordsNow() == AbsorbStep(old(RecordsNow()), lab, refreshed, ok).records
      ensures disk == if ok then Journal(TableNow(), RecordsNow()) else old(disk)
    {
      var previous, previousState, previousTransactions := inventories, GenerationNow(lab), transactions;
      inventories := inventories[lab := refreshed];
      if lab in transactions && transactions[lab].committed
         && transactions[lab].generation == refreshed.generation {
        if previousState.prepared == transactions[lab].generation {
          generations := generations[lab := previousState.(prepared := "")];
        }
        transactions := transactions - {lab};
      }
      Save(ok);
      if !ok {
        WrittenBack(old(generations), lab, previousState.(prepared := ""), previousState);
        inventories, transactions := previous, previousTransactions;
        generations := generations[lab := previousState];
      }
    }

    method RefreshCommittedInventory(lab: Lab, refreshed: Inventory, ok: bool) returns (done: bool)
      modifies this`generations, this`transactions, this`inventories, this`disk
      ensures Abs() == ApplyRecords(old(Abs()), AbsorbStep(old(RecordsNow()), lab, refreshed, ok))
      ensures done <==> ok && lab in old(inventories) && old(inventories)[lab].generation == refreshed.generation
      ensures inventories == if done then old(inventories)[lab := refreshed] else old(inventories)
      ensures transactions ==
        if done && lab in old(transactions) && old(transactions)[lab].committed
           && old(transactions)[lab].generation == refreshed.generation
        then old(transactions) - {lab} else old(transactions)
    {
      if lab !in inventories || inventories[lab].generation != refreshed.generation { return false; }
      WriteRefreshed(lab, refreshed, ok);
      done := ok;
    }

    // ---------- destroy and restart ----------

    /** Removes claims and records of a lab, back where they were when that cannot be saved. */
    method ForgetLab(lab: Lab, ok: bool)
      modifies this`overlayClaims, this`generations, this`transactions, this`inventories, this`overlayLineage
      modifies this`disk
      ensures overlayClaims == if ok then WithoutLab(old(overlayClaims), lab, []) else old(overlayClaims)
      ensures RecordsNow() == if ok then DestroyRecords(old(RecordsNow()), lab) else old(RecordsNow())
      ensures disk == if ok then Journal(TableNow(), RecordsNow()) else old(disk)
    {
      var oldClaims, oldGenerations, oldTransactions := overlayClaims, generations, transactions;
      var oldInventories, oldLineage := inventories, overlayLineage;
      var _ := DropClaims(lab, []);
      generations, transactions := generations - {lab}, transactions - {lab};
      inventories, overlayLineage := inventories - {lab}, overlayLineage - {lab};
      Save(ok);
      if !ok {
        overlayClaims, generations, transactions := oldClaims, oldGenerations, oldTransactions;
        inventories, overlayLineage := oldInventories, oldLineage;
      }
    }

    method FinishDestroyedLab(lab: Lab, fence: Fence, ok: bool) returns (destroyed: bool)
      modifies this
      ensures Abs() == DestroyStep(old(Abs()), lab, fence, ok)
      ensures destroyed <==> ok && Accepts(old(FrontNow()), lab, fence)
      ensures destroyed ==>
        && lab !in transactions && lab !in generations && lab !in inventories && lab !in overlayLineage
        && (forall x :: x in overlayClaims <==> x in old(overlayClaims) && old(overlayClaims)[x].lab != lab)
        && fenceHighWater == old(fenceHighWater) && disk == Journal(TableNow(), RecordsNow())
      ensures forall l | l != lab ::
        && (l in transactions <==> l in old(transactions)) && (l in inventories <==> l in old(inventories))
        && GenerationNow(l) == old(GenerationNow(l))
    {
      if !Accepts(FrontNow(), lab, fence) { return false; }
      ForgetLab(lab, ok);
      destroyed := ok;
    }

    /** Takes the journalled high-water marks over, never lowering one. */
    method LoadHighWater(marks: map<Lab, nat>)
      modifies this`fenceHighWater
      ensures fenceHighWater == Raised(old(fenceHighWater), marks)
    {
      var todo := marks.Keys;
      while todo != {}
        invariant todo <= marks.Keys
        invariant forall x :: x in fenceHighWater <==>
          x in old(fenceHighWater) || (x in marks && x !in todo && marks[x] > 0)
        invariant forall x :: x in fenceHighWater ==>
          fenceHighWater[x] ==
          if x in marks && x !in todo && (x in old(fenceHighWater) ==> marks[x] > old(fenceHighWater)[x])
          then marks[x] else old(fenceHighWater)[x]
        decreases todo
      {
        var lab :| lab in todo;
        todo := todo - {lab};
        if marks[lab] > (if lab in fenceHighWater then fenceHighWater[lab] else 0) {
          fenceHighWater := fenceHighWater[lab := marks[lab]];
        }
      }
    }

    /** Takes the committed generation of every recorded topology over. */
    method RehydrateGenerations()
      modifies this`generations
      ensures RecordsNow() == Rehydrated(old(RecordsNow()), topology)
    {
      var todo := topology.Keys;
      while todo != {}
        invariant todo <= topology.Keys
        invariant generations.Keys == old(generations).Keys + (topology.Keys - todo)
        invariant forall x :: x in generations ==>
          generations[x] == if x in topology && x !in todo
                            then GenerationOf(old(RecordsNow()), x).(committed := topology[x].generation)
                            else old(generations)[x]
        decreases todo
      {
        var lab :| lab in todo;
        todo := todo - {lab};
        generations := generations[lab := GenerationNow(lab).(committed := topology[lab].generation)];
      }
    }

    /** Reads the journal into a fresh process, which has no marks to raise. */
    method LoadCoordination()
      requires fenceHighWater == map[]
      modifies this`fenceHighWater, this`overlayClaims, this`generations, this`transactions, this`inventories,
        this`overlayLineage
      ensures TableNow() == Table(LoadedMarks(disk.table.highWater), CurrentClaims(disk.table.claims, now))
      ensures RecordsNow() == disk.records
    {
      LoadHighWater(disk.table.highWater);
      overlayClaims := disk.table.claims;
      generations, transactions := disk.records.generations, disk.records.transactions;
      inventories, overlayLineage := disk.records.inventories, disk.records.lineage;
      var _ := ExpireClaims();
    }

    /** A new process holds nothing. */
    method Forget()
      modifies this`mutations, this`gcCollecting, this`fenceHighWater, this`overlayClaims, this`generations,
        this`transactions, this`inventories, this`overlayLineage, this`requests
      ensures mutations == map[] && gcCollecting == {} && requests == NO_REQUESTS
      ensures TableNow() == EMPTY_JOURNAL.table && RecordsNow() == EMPTY_JOURNAL.records
    {
      mutations, gcCollecting, requests := map[], {}, NO_REQUESTS;
      fenceHighWater, overlayClaims := map[], map[];
      generations, transactions, inventories, overlayLineage := map[], map[], map[], map[];
    }

    method Restart(readable: bool)
      modifies this
      ensures Abs() == RestartStep(old(Abs()), readable)
    {
      Forget();
      if readable {
        LoadCoordination();
        RehydrateGenerations();
      } else {
        assert LoadedMarks(map[]) == map[] && CurrentClaims(map[], now) == map[];
        RehydrateGenerations();
      }
    }
  }
}
