/**
 The steps on leases, high-water marks and VNI claims. In the source each runs
 under the agent's lock; `ok` (or `ok1`, `ok2`) says whether a save it makes
 succeeded.
 */
module TableSteps {
  import opened Common
  import opened CoordinationState

  /**
   The result of a step: the new leases, table and collections in memory, and
   the table the last successful save of the step wrote, if one did.
   */
  datatype Outcome = Outcome(
    leases: map<Lab, Lease>, table: Table, collecting: set<VNI>, saved: Option<Table>)

  function Keep(v: Front): Outcome {
    Outcome(v.leases, v.table, v.collecting, None)
  }

  function SavedIf(table: Table, saved: bool): Option<Table> {
    if saved then Some(table) else None
  }

  /** Writes new claims, and saves them when `saved`. */
  function WriteClaims(v: Front, claims: Claims, saved: bool): Outcome {
    var table := v.table.(claims := claims);
    Outcome(v.leases, table, v.collecting, SavedIf(table, saved))
  }

  // ---------- expiry ----------

  /** A pending reservation whose deadline has passed. */
  predicate Lapsed(c: Claim, now: nat) {
    !c.live && c.until != 0 && c.until <= now
  }

  function LiveLeases(leases: map<Lab, Lease>, now: nat): map<Lab, Lease> {
    map lab | lab in leases && now < leases[lab].until :: leases[lab]
  }

  function CurrentClaims(claims: Claims, now: nat): Claims {
    map v | v in claims && !Lapsed(claims[v], now) :: claims[v]
  }

  /** Drops leases and pending reservations whose deadline has passed. */
  function Expire(v: Front): Front {
    v.(leases := LiveLeases(v.leases, v.now),
       table := v.table.(claims := CurrentClaims(v.table.claims, v.now)))
  }

  /** Expiry followed by a save when something expired. */
  function SweepStep(v: Front, ok: bool): Outcome {
    var e := Expire(v);
    Keep(e).(saved := SavedIf(e.table, e != v && ok))
  }

  // ---------- leases ----------

  /** Takes the next generation of a lab; the lease exists only if that was saved. */
  function Issue(e: Front, lab: Lab, token: string, until: nat, ok: bool): Outcome {
    var g := HighWater(e.table, lab) + 1;
    var table := e.table.(highWater := e.table.highWater[lab := g]);
    Outcome(if ok then e.leases[lab := Lease(Fence(token, g), until)] else e.leases,
            table, e.collecting, SavedIf(table, ok))
  }

  function AcquireStep(v: Front, lab: Lab, token: string, ttl: int, ok: bool): Outcome {
    if lab == "" then Keep(v)
    else
      var e := Expire(v);
      if lab in e.leases then Keep(e) else Issue(e, lab, token, v.now + LeaseTTL(ttl), ok)
  }

  /** The agent's own recovery and reclamation fences. */
  function AcquireRecoveryStep(v: Front, lab: Lab, token: string, limit: nat, ok1: bool, ok2: bool):
    Outcome
  {
    var e := Expire(v);
    if (e != v && !ok1) || lab in e.leases then Keep(e).(saved := SavedIf(e.table, e != v && ok1))
    else
      var r := Issue(e, lab, token, v.now + limit, ok2);
      if ok2 then r else r.(saved := SavedIf(e.table, e != v))
  }

  /** A pending reservation taken under one fence of one lab. */
  predicate PendingUnder(c: Claim, lab: Lab, generation: nat) {
    !c.live && c.lab == lab && c.generation == generation
  }

  predicate HasPending(claims: Claims, lab: Lab, generation: nat) {
    exists v :: v in claims && PendingUnder(claims[v], lab, generation)
  }

  function Extended(claims: Claims, lab: Lab, generation: nat, until: nat): Claims {
    map v | v in claims ::
      if PendingUnder(claims[v], lab, generation) then claims[v].(until := until) else claims[v]
  }

  function WithoutPending(claims: Claims, lab: Lab, generation: nat): Claims {
    map v | v in claims && !PendingUnder(claims[v], lab, generation) :: claims[v]
  }

  function RenewStep(v: Front, lab: Lab, f: Fence, ttl: int, ok: bool): Outcome {
    var e := Expire(v);
    if !Accepts(e, lab, f) then SweepStep(v, ok)
    else
      var until := v.now + LeaseTTL(ttl);
      var changed := e != v || HasPending(e.table.claims, lab, f.generation);
      WriteClaims(e, Extended(e.table.claims, lab, f.generation, until), changed && ok)
        .(leases := e.leases[lab := Lease(f, until)])
  }

  function ReleaseStep(v: Front, lab: Lab, f: Fence, ok: bool): Outcome {
    var e := Expire(v);
    if !Accepts(e, lab, f) then SweepStep(v, ok)
    else
      var changed := e != v || HasPending(e.table.claims, lab, f.generation);
      WriteClaims(e, WithoutPending(e.table.claims, lab, f.generation), changed && ok)
        .(leases := e.leases - {lab})
  }

  // ---------- reservations ----------

  /**
   A reservation request together with what the kernel and the topology records
   answer: `owners` is the overlay ownership table ("" for an overlay created
   before ownership was stamped), `proven` holds the ownerless VNIs this lab can
   prove to be its own, `stampable` and `revertible` say which kernel alias
   writes and which of their reverts succeed.
   */
  datatype Reservation = Reservation(
    vnis: seq<VNI>, owners: map<VNI, Lab>, proven: set<VNI>,
    stampable: set<VNI>, revertible: set<VNI>)

  /** What stops one VNI of a request. */
  predicate Blocked(v: Front, lab: Lab, generation: nat, req: Reservation, vni: VNI) {
    || vni in v.collecting
    || (vni in req.owners && req.owners[vni] != lab
        && (req.owners[vni] != "" || vni !in req.proven))
    || (vni in v.table.claims &&
        (v.table.claims[vni].lab != lab ||
         (!v.table.claims[vni].live && v.table.claims[vni].generation != generation)))
  }

  predicate Admitted(v: Front, lab: Lab, generation: nat, req: Reservation) {
    forall vni :: vni in req.vnis ==> !Blocked(v, lab, generation, req, vni)
  }

  /** The distinct VNIs of a request, in increasing order. */
  function Wanted(req: Reservation): seq<VNI> {
    SortedSeq(Members(req.vnis))
  }

  /** The ownerless overlays among `vnis`, which the lab adopts by stamping their alias. */
  function Legacy(lab: Lab, owners: map<VNI, Lab>, vnis: seq<VNI>): seq<VNI> {
    if vnis == [] then []
    else
      var rest := Legacy(lab, owners, vnis[..|vnis| - 1]);
      var last := vnis[|vnis| - 1];
      if last in owners && owners[last] != lab && owners[last] == "" then rest + [last] else rest
  }

  /** How many leading VNIs of a list can be stamped before the first failure. */
  function StampedPrefix(vnis: seq<VNI>, stampable: set<VNI>): (n: nat)
    ensures n <= |vnis|
    ensures forall i | 0 <= i < n :: vnis[i] in stampable
    ensures n < |vnis| ==> vnis[n] !in stampable
  {
    if vnis == [] || vnis[0] !in stampable then 0
    else 1 + StampedPrefix(vnis[1..], stampable)
  }

  function Reserved(claims: Claims, lab: Lab, generation: nat, until: nat, vnis: set<VNI>): Claims {
    map v | v in claims.Keys + vnis ::
      if v !in vnis then claims[v]
      else if v in claims && claims[v].live then claims[v].(generation := generation)
      else Claim(lab, generation, until, false)
  }

  /** The claims with a live one of this fence for each of `vnis`. */
  function Stamped(claims: Claims, lab: Lab, generation: nat, vnis: set<VNI>): Claims {
    map v | v in claims.Keys + vnis ::
      if v in vnis then Claim(lab, generation, 0, true) else claims[v]
  }

  /** A live claim already guarded by this fence needs no write. */
  predicate NeedsWrite(claims: Claims, generation: nat, vnis: set<VNI>) {
    exists v :: v in vnis && !(v in claims && claims[v].live && claims[v].generation == generation)
  }

  /** The outcome, the aliases left stamped in the kernel, and whether the request succeeded. */
  datatype ReserveResult = ReserveResult(outcome: Outcome, stamped: set<VNI>, granted: bool)

  function ReserveStep(v: Front, lab: Lab, f: Fence, req: Reservation, ok1: bool, ok2: bool):
    ReserveResult
  {
    if 0 in req.vnis || lab == "" then ReserveResult(Keep(v), {}, false)
    else
      var e := Expire(v);
      if !Accepts(e, lab, f) then ReserveResult(SweepStep(v, ok1), {}, false)
      else if !Admitted(e, lab, f.generation, req) then ReserveResult(Keep(e), {}, false)
      else ReserveAdmitted(e, e != v, lab, f.generation, req, ok1, ok2)
  }

  /** A failed first save restores the claims. */
  function ReserveAdmitted(e: Front, expired: bool, lab: Lab, g: nat, req: Reservation,
                           ok1: bool, ok2: bool): ReserveResult
    requires lab in e.leases
  {
    var wanted := Members(req.vnis);
    var changed := expired || NeedsWrite(e.table.claims, g, wanted);
    if changed && !ok1 then ReserveResult(Keep(e), {}, false)
    else
      var claims := Reserved(e.table.claims, lab, g, e.leases[lab].until, wanted);
      AdoptLegacy(e, claims, changed, lab, g, Legacy(lab, req.owners, Wanted(req)), req, ok2)
  }

  /**
   Stamps the ownerless overlays. A failed stamp reverts the earlier ones,
   restores the claims of `e` and keeps a live claim for each alias that could
   not be reverted; a failed last save keeps the live claims in memory.
   */
  function AdoptLegacy(e: Front, claims: Claims, changed: bool, lab: Lab, g: nat,
                       legacy: seq<VNI>, req: Reservation, ok2: bool): ReserveResult
  {
    var n := StampedPrefix(legacy, req.stampable);
    var done := Members(legacy[..n]);
    var kept := if n == |legacy| then done else done - req.revertible;
    var base := if n == |legacy| then claims else e.table.claims;
    var r := WriteClaims(e, Stamped(base, lab, g, kept), true);
    var again := n < |legacy| || done != {};
    ReserveResult(
      if again && ok2 then r
      else r.(saved := SavedIf(e.table.(claims := claims), changed)),
      kept, n == |legacy| && (again ==> ok2))
  }

  /** Whether every VNI is reserved by this fence and not lapsed. */
  predicate ReservationsHold(v: Front, lab: Lab, f: Fence, vnis: seq<VNI>) {
    forall i | 0 <= i < |vnis| ::
      && HeldBy(v.table.claims, lab, f.generation, vnis[i])
      && !Lapsed(v.table.claims[vnis[i]], v.now)
  }

  /** The VNI is claimed, pending or live, by this fence. */
  predicate HeldBy(claims: Claims, lab: Lab, generation: nat, v: VNI) {
    v in claims && claims[v].lab == lab && claims[v].generation == generation
  }

  /** How many leading VNIs are claimed by this fence. */
  function HeldPrefix(claims: Claims, lab: Lab, generation: nat, vnis: seq<VNI>): (n: nat)
    ensures n <= |vnis|
    ensures forall i | 0 <= i < n :: HeldBy(claims, lab, generation, vnis[i])
    ensures n < |vnis| ==> !HeldBy(claims, lab, generation, vnis[n])
  {
    if vnis == [] || !HeldBy(claims, lab, generation, vnis[0]) then 0
    else 1 + HeldPrefix(claims, lab, generation, vnis[1..])
  }

  function Promoted(claims: Claims, vnis: set<VNI>): Claims {
    map v | v in claims ::
      if v in vnis && !claims[v].live then claims[v].(live := true, until := 0) else claims[v]
  }

  /** Promotion stops at the first VNI this fence did not reserve, without a save. */
  function PromoteStep(v: Front, lab: Lab, f: Fence, vnis: seq<VNI>, ok: bool): Outcome {
    if !Accepts(v, lab, f) then Keep(v)
    else
      var n := HeldPrefix(v.table.claims, lab, f.generation, vnis);
      var claims := Promoted(v.table.claims, Members(vnis[..n]));
      WriteClaims(v, claims, n == |vnis| && claims != v.table.claims && ok)
  }

  function WithoutLab(claims: Claims, lab: Lab, vnis: seq<VNI>): Claims {
    map v | v in claims && !(claims[v].lab == lab && (vnis == [] || v in vnis)) :: claims[v]
  }

  function ReleaseClaimsStep(v: Front, lab: Lab, vnis: seq<VNI>, ok: bool): Outcome {
    var claims := WithoutLab(v.table.claims, lab, vnis);
    WriteClaims(v, claims, claims != v.table.claims && ok)
  }

  function WithoutUnwanted(claims: Claims, lab: Lab, generation: nat, vnis: set<VNI>): Claims {
    map v | v in claims && (v in vnis || !PendingUnder(claims[v], lab, generation)) :: claims[v]
  }

  /** Rollback writes the claims of the previous topology back, unchecked. */
  function RestoreClaimsStep(v: Front, lab: Lab, f: Fence, vnis: seq<VNI>, ok: bool): Outcome {
    var wanted := Members(vnis);
    WriteClaims(v, Stamped(WithoutUnwanted(v.table.claims, lab, f.generation, wanted),
                           lab, f.generation, wanted), ok)
  }

  // ---------- overlay collection ----------

  /** The part of lab protection that leases and claims decide. */
  predicate Protected(v: Front, lab: Lab) {
    && lab != ""
    && (|| (lab in v.leases && v.now < v.leases[lab].until)
        || exists x :: x in v.table.claims && v.table.claims[x].lab == lab
                       && !Lapsed(v.table.claims[x], v.now))
  }

  /** `busy` is the rest of lab protection: open records, operations, holds, topology. */
  predicate CollectionAllowed(v: Front, vni: VNI, owner: Lab, busy: bool) {
    && vni !in v.collecting
    && !(owner != "" && busy)
    && !Protected(v, owner)
    && vni !in v.table.claims
  }

  function BeginCollectionStep(v: Front, vni: VNI, owner: Lab, busy: bool): Outcome {
    if CollectionAllowed(v, vni, owner, busy)
    then Keep(v).(collecting := v.collecting + {vni})
    else Keep(v)
  }

  function EndCollectionStep(v: Front, vni: VNI, owner: Lab, ok: bool): Outcome {
    var e := v.(collecting := v.collecting - {vni});
    if vni !in v.table.claims || (owner != "" && v.table.claims[vni].lab != owner) then Keep(e)
    else WriteClaims(e, v.table.claims - {vni}, ok)
  }

  function WithoutStale(claims: Claims, eligible: set<VNI>, protected: set<Lab>): Claims {
    map v | v in claims && !(claims[v].live && v in eligible && claims[v].lab !in protected) :: claims[v]
  }

  /** Garbage collection of live claims whose lab was unprotected at the last scan. */
  function CollectLiveStep(v: Front, eligible: set<VNI>, protected: set<Lab>, ok: bool): Outcome {
    var claims := WithoutStale(v.table.claims, eligible, protected);
    WriteClaims(v, claims, claims != v.table.claims && ok)
  }

  // ---------- events ----------

  datatype TableEvent =
    | Sweep(ok: bool)
    | Acquire(lab: Lab, token: string, ttl: int, ok: bool)
    | AcquireRecovery(lab: Lab, token: string, limit: nat, ok1: bool, ok2: bool)
    | Renew(lab: Lab, fence: Fence, ttl: int, ok: bool)
    | Release(lab: Lab, fence: Fence, ok: bool)
    | Reserve(lab: Lab, fence: Fence, req: Reservation, ok1: bool, ok2: bool)
    | Promote(lab: Lab, fence: Fence, vnis: seq<VNI>, ok: bool)
    | ReleaseClaims(lab: Lab, vnis: seq<VNI>, ok: bool)
    | RestoreClaims(lab: Lab, fence: Fence, vnis: seq<VNI>, ok: bool)
    | BeginCollection(vni: VNI, owner: Lab, busy: bool)
    | EndCollection(vni: VNI, owner: Lab, ok: bool)
    | CollectLive(eligible: set<VNI>, protected: set<Lab>, ok: bool)

  function TableStep(v: Front, e: TableEvent): Outcome {
    match e
    case Sweep(ok) => SweepStep(v, ok)
    case Acquire(lab, token, ttl, ok) => AcquireStep(v, lab, token, ttl, ok)
    case AcquireRecovery(lab, token, limit, ok1, ok2) =>
      AcquireRecoveryStep(v, lab, token, limit, ok1, ok2)
    case Renew(lab, f, ttl, ok) => RenewStep(v, lab, f, ttl, ok)
    case Release(lab, f, ok) => ReleaseStep(v, lab, f, ok)
    case Reserve(lab, f, req, ok1, ok2) => ReserveStep(v, lab, f, req, ok1, ok2).outcome
    case Promote(lab, f, vnis, ok) => PromoteStep(v, lab, f, vnis, ok)
    case ReleaseClaims(lab, vnis, ok) => ReleaseClaimsStep(v, lab, vnis, ok)
    case RestoreClaims(lab, f, vnis, ok) => RestoreClaimsStep(v, lab, f, vnis, ok)
    case BeginCollection(vni, owner, busy) => BeginCollectionStep(v, vni, owner, busy)
    case EndCollection(vni, owner, ok) => EndCollectionStep(v, vni, owner, ok)
    case CollectLive(eligible, protected, ok) => CollectLiveStep(v, eligible, protected, ok)
  }
}
