/**
 VNI claims over whole runs: every claim is of an issued fence, pending
 reservations move in lockstep with their lease, and a VNI under collection has
 no claim until a rollback writes one.
 */
module OverlayClaims {
  import opened Common
  import opened CoordinationState
  import opened TableSteps
  import opened RecordSteps
  import opened RequestSteps
  import opened CoordinationRun
  import opened Fencing

  /** Every claim was made under a fence generation the disk knows. */
  ghost predicate Marked(claims: Claims, disk: Table) {
    forall x :: x in claims ==> claims[x].generation <= HighWater(disk, claims[x].lab)
  }

  /** A pending reservation of the current lease has the deadline of that lease. */
  ghost predicate Lockstep(v: Front) {
    forall x :: x in v.table.claims ==> InStep(v.leases, v.table.claims[x])
  }

  predicate InStep(leases: map<Lab, Lease>, c: Claim) {
    !c.live && c.lab in leases && leases[c.lab].fence.generation == c.generation ==>
      c.until == leases[c.lab].until
  }

  ghost predicate ClaimInv(v: Front, disk: Table) {
    && Marked(v.table.claims, disk)
    && Marked(disk.claims, disk)
    && Lockstep(v)
  }

  function FrontAfter(v: Front, o: Outcome): Front {
    Front(v.now, o.leases, o.table, o.collecting)
  }

  function DiskAfter(disk: Table, o: Outcome): Table {
    if o.saved.Some? then o.saved.value else disk
  }

  // ---------- what each step does to the claims ----------

  /** Each claim of `after` is one of `before`, or one of `vnis` under the accepted fence. */
  ghost predicate ClaimsFrom(before: Claims, after: Claims, lab: Lab, l: Lease, vnis: set<VNI>) {
    forall x :: x in after ==>
      (x in before && after[x] == before[x]) || (x in vnis && UnderLease(after[x], lab, l))
  }

  predicate UnderLease(c: Claim, lab: Lab, l: Lease) {
    c.lab == lab && c.generation == l.fence.generation && (c.live || c.until == l.until)
  }

  lemma ReservedFrom(e: Front, lab: Lab, req: Reservation)
    requires lab in e.leases && Admitted(e, lab, e.leases[lab].fence.generation, req)
    ensures var l := e.leases[lab];
            var wanted := Members(req.vnis);
            var after := Reserved(e.table.claims, lab, l.fence.generation, l.until, wanted);
            ClaimsFrom(e.table.claims, after, lab, l, wanted)
  {
    var g := e.leases[lab].fence.generation;
    forall x | x in req.vnis ensures !Blocked(e, lab, g, req, x) {}
  }

  lemma StampedFrom(before: Claims, claims: Claims, lab: Lab, l: Lease, wanted: set<VNI>, vnis: set<VNI>)
    requires ClaimsFrom(before, claims, lab, l, wanted) && vnis <= wanted
    ensures ClaimsFrom(before, Stamped(claims, lab, l.fence.generation, vnis), lab, l, wanted)
  {}

  lemma {:induction false} LegacyMembers(lab: Lab, owners: map<VNI, Lab>, vnis: seq<VNI>)
    ensures forall x :: x in Legacy(lab, owners, vnis) <==>
              x in vnis && x in owners && owners[x] != lab && owners[x] == ""
  {
    if vnis != [] {
      LegacyMembers(lab, owners, vnis[..|vnis| - 1]);
      assert vnis == vnis[..|vnis| - 1] + [vnis[|vnis| - 1]];
    }
  }

  /** The claims a reservation leaves in memory and on disk come from the expired ones. */
  lemma AdoptFrom(e: Front, claims: Claims, changed: bool, lab: Lab, legacy: seq<VNI>,
                  wanted: set<VNI>, req: Reservation, ok2: bool)
    requires lab in e.leases && ClaimsFrom(e.table.claims, claims, lab, e.leases[lab], wanted)
    requires forall x :: x in legacy ==> x in wanted
    ensures var o := AdoptLegacy(e, claims, changed, lab, e.leases[lab].fence.generation, legacy, req, ok2).outcome;
            && ClaimsFrom(e.table.claims, o.table.claims, lab, e.leases[lab], wanted)
            && (o.saved.Some? ==> ClaimsFrom(e.table.claims, o.saved.value.claims, lab, e.leases[lab], wanted))
  {
    var l := e.leases[lab];
    var n := StampedPrefix(legacy, req.stampable);
    var done := Members(legacy[..n]);
    StampedFrom(e.table.claims, claims, lab, l, wanted, done);
    StampedFrom(e.table.claims, e.table.claims, lab, l, wanted, done - req.revertible);
  }

  lemma ReserveFrom(v: Front, lab: Lab, f: Fence, req: Reservation, ok1: bool, ok2: bool)
    requires Accepts(Expire(v), lab, f) && 0 !in req.vnis && Admitted(Expire(v), lab, f.generation, req)
    ensures var e := Expire(v); var o := ReserveStep(v, lab, f, req, ok1, ok2).outcome;
            var wanted := Members(req.vnis);
            && ClaimsFrom(e.table.claims, o.table.claims, lab, e.leases[lab], wanted)
            && (o.saved.Some? ==> ClaimsFrom(e.table.claims, o.saved.value.claims, lab, e.leases[lab], wanted))
  {
    var e := Expire(v);
    var g := f.generation;
    ReservedFrom(e, lab, req);
    LegacyMembers(lab, req.owners, Wanted(req));
    var wanted := Members(req.vnis);
    AdoptFrom(e, Reserved(e.table.claims, lab, g, e.leases[lab].until, wanted),
              e != v || NeedsWrite(e.table.claims, g, wanted), lab,
              Legacy(lab, req.owners, Wanted(req)), wanted, req, ok2);
  }

  // ---------- every step keeps the invariant ----------

  /** A disk table that knows at least the marks of another. */
  ghost predicate MarksGrow(t: Table, t': Table) {
    forall lab :: HighWater(t, lab) <= HighWater(t', lab)
  }

  /** No claim is new, no lease is new, and a save writes exactly what memory holds. */
  ghost predicate OnlyDrops(v: Front, o: Outcome) {
    && (forall x :: x in o.table.claims ==> x in v.table.claims && o.table.claims[x] == v.table.claims[x])
    && (forall lab :: lab in o.leases ==> lab in v.leases && o.leases[lab] == v.leases[lab])
    && o.table.highWater == v.table.highWater
    && (o.saved.Some? ==> o.saved.value == o.table)
  }

  lemma DropsKeepClaims(v: Front, disk: Table, o: Outcome)
    requires ClaimInv(v, disk) && MarksCover(v, disk) && OnlyDrops(v, o)
    ensures ClaimInv(FrontAfter(v, o), DiskAfter(disk, o))
  {
    var d := DiskAfter(disk, o);
    assert MarksGrow(disk, d) by {
      forall lab ensures HighWater(disk, lab) <= HighWater(d, lab) {}
    }
    forall x | x in o.table.claims ensures o.table.claims[x].generation <= HighWater(d, o.table.claims[x].lab) {
      assert HighWater(disk, o.table.claims[x].lab) <= HighWater(d, o.table.claims[x].lab);
    }
  }

  predicate IsDropEvent(e: TableEvent) {
    e.Sweep? || e.Release? || e.ReleaseClaims? || e.BeginCollection? || e.EndCollection? || e.CollectLive?
  }

  lemma DropEvents(v: Front, e: TableEvent)
    requires IsDropEvent(e)
    ensures OnlyDrops(v, TableStep(v, e))
  {}

  lemma ExpireKeepsClaims(v: Front, disk: Table)
    requires ClaimInv(v, disk)
    ensures ClaimInv(Expire(v), disk)
  {}

  /** A fresh lease is above every claim, so it starts with no reservation of its own. */
  lemma IssueKeepsClaims(e: Front, disk: Table, lab: Lab, token: string, until: nat, ok: bool)
    requires ClaimInv(e, disk) && MarksCover(e, disk)
    ensures var o := Issue(e, lab, token, until, ok);
            ClaimInv(FrontAfter(e, o), DiskAfter(disk, o))
  {
    var o := Issue(e, lab, token, until, ok);
    var d := DiskAfter(disk, o);
    forall l ensures HighWater(disk, l) <= HighWater(d, l) {}
    forall x | x in e.table.claims ensures InStep(o.leases, e.table.claims[x]) {
      assert e.table.claims[x].generation <= HighWater(e.table, e.table.claims[x].lab);
    }
  }

  lemma RenewKeepsClaims(v: Front, disk: Table, lab: Lab, f: Fence, ttl: int, ok: bool)
    requires ClaimInv(v, disk) && MarksCover(v, disk)
    ensures var o := RenewStep(v, lab, f, ttl, ok);
            ClaimInv(FrontAfter(v, o), DiskAfter(disk, o))
  {
    var e := Expire(v);
    if !Accepts(e, lab, f) {
      DropEvents(v, Sweep(ok));
      DropsKeepClaims(v, disk, SweepStep(v, ok));
    } else {
      var o := RenewStep(v, lab, f, ttl, ok);
      var d := DiskAfter(disk, o);
      forall l ensures HighWater(disk, l) <= HighWater(d, l) {}
      forall x | x in o.table.claims
        ensures o.table.claims[x].generation <= HighWater(d, o.table.claims[x].lab)
        ensures InStep(o.leases, o.table.claims[x])
      {
        assert x in e.table.claims && x in v.table.claims;
        assert HighWater(disk, o.table.claims[x].lab) <= HighWater(d, o.table.claims[x].lab);
      }
    }
  }

  /** Claims taken from the old ones or made under an issued fence. */
  ghost predicate ClaimsAdded(v: Front, o: Outcome, disk: Table) {
    && o.leases == v.leases && o.table.highWater == v.table.highWater
    && (forall x :: x in o.table.claims ==>
          || (x in v.table.claims && o.table.claims[x] == v.table.claims[x])
          || (&& o.table.claims[x].generation <= HighWater(disk, o.table.claims[x].lab)
              && InStep(v.leases, o.table.claims[x])))
    && (o.saved.Some? ==>
          && o.saved.value.highWater == v.table.highWater
          && Marked(o.saved.value.claims, disk))
  }

  lemma AddedKeepsClaims(v: Front, disk: Table, o: Outcome)
    requires ClaimInv(v, disk) && MarksCover(v, disk) && ClaimsAdded(v, o, disk)
    ensures ClaimInv(FrontAfter(v, o), DiskAfter(disk, o))
  {
    var d := DiskAfter(disk, o);
    forall l ensures HighWater(disk, l) <= HighWater(d, l) {}
    forall x | x in o.table.claims
      ensures o.table.claims[x].generation <= HighWater(d, o.table.claims[x].lab)
      ensures InStep(o.leases, o.table.claims[x])
    {
      assert HighWater(disk, o.table.claims[x].lab) <= HighWater(d, o.table.claims[x].lab);
    }
    forall x | x in d.claims
      ensures d.claims[x].generation <= HighWater(d, d.claims[x].lab)
    {
      assert HighWater(disk, d.claims[x].lab) <= HighWater(d, d.claims[x].lab);
    }
  }

  lemma PromoteAdds(v: Front, disk: Table, lab: Lab, f: Fence, vnis: seq<VNI>, ok: bool)
    requires ClaimInv(v, disk)
    ensures ClaimsAdded(v, PromoteStep(v, lab, f, vnis, ok), disk)
  {}

  lemma ReserveAdds(v: Front, disk: Table, lab: Lab, f: Fence, req: Reservation, ok1: bool, ok2: bool)
    requires ClaimInv(v, disk) && MarksCover(v, disk)
    requires Accepts(Expire(v), lab, f) && 0 !in req.vnis && Admitted(Expire(v), lab, f.generation, req)
    ensures ClaimsAdded(Expire(v), ReserveStep(v, lab, f, req, ok1, ok2).outcome, disk)
  {
    var e := Expire(v);
    ReserveFrom(v, lab, f, req, ok1, ok2);
    ReserveKeepsFences(v, lab, f, req, ok1, ok2);
    ReserveLeavesRest(v, lab, f, req, ok1, ok2);
  }

  lemma ReserveLeavesRest(v: Front, lab: Lab, f: Fence, req: Reservation, ok1: bool, ok2: bool)
    requires Accepts(Expire(v), lab, f) && 0 !in req.vnis
    ensures var o := ReserveStep(v, lab, f, req, ok1, ok2).outcome;
            o.leases == Expire(v).leases && o.collecting == v.collecting
  {}

  lemma ReserveKeepsClaims(v: Front, disk: Table, lab: Lab, f: Fence, req: Reservation, ok1: bool, ok2: bool)
    requires ClaimInv(v, disk) && MarksCover(v, disk)
    ensures var o := ReserveStep(v, lab, f, req, ok1, ok2).outcome;
            ClaimInv(FrontAfter(v, o), DiskAfter(disk, o))
  {
    var e := Expire(v);
    var o := ReserveStep(v, lab, f, req, ok1, ok2).outcome;
    ExpireKeepsClaims(v, disk);
    if 0 !in req.vnis && lab != "" {
      if !Accepts(e, lab, f) {
        DropEvents(v, Sweep(ok1));
        DropsKeepClaims(v, disk, o);
      } else if Admitted(e, lab, f.generation, req) {
        ReserveAdds(v, disk, lab, f, req, ok1, ok2);
        AddedKeepsClaims(e, disk, o);
      }
    }
  }

  lemma TableStepKeepsClaims(v: Front, disk: Table, e: TableEvent)
    requires ClaimInv(v, disk) && MarksCover(v, disk)
    requires e.RestoreClaims? ==> WasIssued(disk, e.lab, e.fence.generation)
    ensures var o := TableStep(v, e); ClaimInv(FrontAfter(v, o), DiskAfter(disk, o))
  {
    var o := TableStep(v, e);
    if IsDropEvent(e) {
      DropEvents(v, e);
      DropsKeepClaims(v, disk, o);
    } else {
      match e
      case Acquire(lab, token, ttl, ok) =>
        ExpireKeepsClaims(v, disk);
        IssueKeepsClaims(Expire(v), disk, lab, token, v.now + LeaseTTL(ttl), ok);
      case AcquireRecovery(lab, token, limit, ok1, ok2) =>
        AcquireRecoveryKeepsClaims(v, disk, lab, token, limit, ok1, ok2);
      case Renew(lab, f, ttl, ok) => RenewKeepsClaims(v, disk, lab, f, ttl, ok);
      case Reserve(lab, f, req, ok1, ok2) => ReserveKeepsClaims(v, disk, lab, f, req, ok1, ok2);
      case Promote(lab, f, vnis, ok) =>
        PromoteAdds(v, disk, lab, f, vnis, ok);
        AddedKeepsClaims(v, disk, o);
      case RestoreClaims(lab, f, vnis, ok) =>
        AddedKeepsClaims(v, disk, o);
    }
  }

  lemma AcquireRecoveryKeepsClaims(v: Front, disk: Table, lab: Lab, token: string, limit: nat, ok1: bool, ok2: bool)
    requires ClaimInv(v, disk) && MarksCover(v, disk)
    ensures var o := AcquireRecoveryStep(v, lab, token, limit, ok1, ok2);
            ClaimInv(FrontAfter(v, o), DiskAfter(disk, o))
  {
    var x := Expire(v);
    if (x != v && !ok1) || lab in x.leases {
      SweepKeepsClaims(v, disk, ok1);
    } else if ok2 {
      ExpireKeepsClaims(v, disk);
      IssueKeepsClaims(x, disk, lab, token, v.now + limit, true);
    } else {
      SweepKeepsClaims(v, disk, true);
    }
  }

  lemma SweepKeepsClaims(v: Front, disk: Table, ok: bool)
    requires ClaimInv(v, disk) && MarksCover(v, disk)
    ensures var x := Expire(v); ClaimInv(x, if ok && x != v then x.table else disk)
  {
    DropEvents(v, Sweep(ok));
    DropsKeepClaims(v, disk, SweepStep(v, ok));
  }

  // ---------- whole runs ----------

  ghost predicate Claimed(s: State) { ClaimInv(FrontOf(s), s.disk.table) }

  lemma DestroyKeepsClaims(s: State, lab: Lab, f: Fence, ok: bool)
    requires Claimed(s) && FenceInv(s)
    ensures Claimed(DestroyStep(s, lab, f, ok))
  {
    var forgotten := s.mem.table.(claims := WithoutLab(s.mem.table.claims, lab, []));
    var o := ReleaseClaimsStep(FrontOf(s), lab, [], true).(saved := Some(forgotten));
    DropsKeepClaims(FrontOf(s), s.disk.table, o);
  }

  lemma SaveKeepsClaims(s: State, ok: bool)
    requires Claimed(s) && FenceInv(s)
    ensures Claimed(Step(s, SaveAll(ok)))
  {
    DropsKeepClaims(FrontOf(s), s.disk.table, Keep(FrontOf(s)).(saved := SavedIf(s.mem.table, ok)));
  }

  lemma TableEventKeepsClaims(s: State, te: TableEvent)
    requires Claimed(s) && FenceInv(s)
    requires te.RestoreClaims? && Restorable(s.requests, te.lab, te.fence, te.vnis) ==>
               WasIssued(s.disk.table, te.lab, te.fence.generation)
    ensures Claimed(Step(s, OnTable(te)))
  {
    if !(te.RestoreClaims? && !Restorable(s.requests, te.lab, te.fence, te.vnis)) {
      TableStepKeepsClaims(FrontOf(s), s.disk.table, WithProtection(s, te));
    }
  }

  /** Claims are of issued fences and in lockstep with the leases, in every reachable state. */
  lemma {:induction false} RunKeepsClaims(ss: seq<State>, es: seq<Event>, n: nat)
    requires IsRun(ss, es) && Durable(es) && n < |ss|
    ensures Claimed(ss[n])
  {
    if n > 0 {
      assert StepAt(ss, es, n - 1);
      RunKeepsClaims(ss, es, n - 1);
      RunKeepsFenceInv(ss, es, n - 1);
      var s, e := ss[n - 1], es[n - 1];
      match e
      case Restart(_) =>
      case SaveAll(ok) => SaveKeepsClaims(s, ok);
      case OnTable(te) =>
        if te.RestoreClaims? && Restorable(s.requests, te.lab, te.fence, te.vnis) {
          RunKeepsIssued(ss, es, n - 1, te.lab);
        }
        TableEventKeepsClaims(s, te);
      case OnRecords(lab, f, re, ok) =>
        var w := RecordStep(s.mem.records, lab, Accepts(FrontOf(s), lab, f), f.generation, re, ok);
        DropsKeepClaims(FrontOf(s), s.disk.table, Keep(FrontOf(s)).(saved := SavedIf(s.mem.table, w.saved)));
      case Destroy(lab, f, ok) => DestroyKeepsClaims(s, lab, f, ok);
      case _ =>
    }
  }

  // ---------- collection ----------

  /** A VNI being collected has no claim. */
  predicate Excluded(v: Front, x: VNI) {
    x in v.collecting ==> x !in v.table.claims
  }

  /** A rollback writes the claim of this VNI back. */
  predicate Restores(e: Event, x: VNI) {
    e.OnTable? && e.event.RestoreClaims? && x in e.event.vnis
  }

  lemma ReserveKeepsExcluded(v: Front, lab: Lab, f: Fence, req: Reservation, ok1: bool, ok2: bool, x: VNI)
    requires Excluded(v, x)
    ensures Excluded(FrontAfter(v, ReserveStep(v, lab, f, req, ok1, ok2).outcome), x)
  {
    var e := Expire(v);
    if 0 in req.vnis || lab == "" {
    } else if !Accepts(e, lab, f) {
    } else if !Admitted(e, lab, f.generation, req) {
    } else {
      ReserveFrom(v, lab, f, req, ok1, ok2);
      ReserveLeavesRest(v, lab, f, req, ok1, ok2);
      assert x in req.vnis ==> !Blocked(e, lab, f.generation, req, x);
    }
  }

  lemma TableKeepsExcluded(v: Front, e: TableEvent, x: VNI)
    requires Excluded(v, x) && !Restores(OnTable(e), x)
    ensures Excluded(FrontAfter(v, TableStep(v, e)), x)
  {
    if e.Reserve? {
      ReserveKeepsExcluded(v, e.lab, e.fence, e.req, e.ok1, e.ok2, x);
    } else if e.Promote? {
      if !Accepts(v, e.lab, e.fence) {
      } else {
      }
    }
  }

  /** Collection and reservation of a VNI exclude each other in runs that do not roll it back. */
  lemma {:induction false} RunKeepsExcluded(ss: seq<State>, es: seq<Event>, i: nat, k: nat, x: VNI)
    requires IsRun(ss, es) && i <= k < |ss| && Excluded(FrontOf(ss[i]), x)
    requires forall m | i <= m < k :: !Restores(es[m], x)
    ensures Excluded(FrontOf(ss[k]), x)
    decreases k
  {
    if i < k {
      RunKeepsExcluded(ss, es, i, k - 1, x);
      assert StepAt(ss, es, k - 1);
      var s, e := ss[k - 1], es[k - 1];
      if e.OnTable? {
        TableKeepsExcluded(FrontOf(s), WithProtection(s, e.event), x);
      }
    }
  }
}
