/**
 Disposable labs: their lifetime records in memory and in the journal, and the
 steps that move them. Instants are nanoseconds, 0 is the unset instant; the
 clock is never 0. `ok` says whether a save succeeds.
 */
module EphemeralSteps {
  import opened Common

  const DEFAULT_TTL_SECONDS: nat := 900
  const MAX_TTL_SECONDS: nat := 3600
  const MAX_LIFETIME: nat := 8 * 3600 * SECOND
  const RESTART_GRACE_SECONDS: nat := 15 * 60

  datatype Lifetime = Lifetime(
    owner: string, ttl: nat, created: nat, expires: nat, hard: nat, restored: bool)

  type Lifetimes = map<Lab, Lifetime>

  /** `mem` is what the process holds, `disk` what the last successful save wrote. */
  datatype State = State(now: nat, mem: Lifetimes, disk: Lifetimes)

  function Deadline(l: Lifetime): nat {
    if l.hard != 0 && l.hard < l.expires then l.hard else l.expires
  }

  predicate Expired(l: Lifetime, now: nat) {
    Deadline(l) != 0 && Deadline(l) <= now
  }

  /** The seconds one grant may last. */
  function ClampTTL(seconds: int): (ttl: nat)
    ensures 1 <= ttl <= MAX_TTL_SECONDS
    ensures 1 <= seconds <= MAX_TTL_SECONDS ==> ttl == seconds
    ensures seconds > MAX_TTL_SECONDS ==> ttl == MAX_TTL_SECONDS
    ensures seconds <= 0 ==> ttl == DEFAULT_TTL_SECONDS
  {
    if seconds <= 0 then DEFAULT_TTL_SECONDS
    else if seconds > MAX_TTL_SECONDS then MAX_TTL_SECONDS
    else seconds
  }

  // ---------- deployment ----------

  /** A lifetime that starts now. */
  function Starting(now: nat, owner: string, ttl: nat): Lifetime {
    Lifetime(owner, ttl, now, now + ttl * SECOND, now + MAX_LIFETIME, false)
  }

  /** A redeploy keeps the ceiling of a lifetime with a known creation. */
  function Noted(s: State, lab: Lab, owner: string, seconds: int): Lifetime {
    var started := Starting(s.now, owner, ClampTTL(seconds));
    if lab in s.mem && s.mem[lab].created != 0 && s.mem[lab].hard != 0
    then started.(created := s.mem[lab].created, hard := s.mem[lab].hard)
    else started
  }

  function NoteStep(s: State, lab: Lab, owner: string, seconds: int, ok: bool): State {
    if lab == "" || !ok then s
    else
      var mem := s.mem[lab := Noted(s, lab, owner, seconds)];
      State(s.now, mem, mem)
  }

  // ---------- heartbeats ----------

  predicate HeldByOther(l: Lifetime, owner: string) {
    l.owner != "" && owner != "" && l.owner != owner
  }

  /** A heartbeat is accepted from the owner of an unexpired lifetime. */
  predicate CanRenew(s: State, lab: Lab, owner: string) {
    lab != "" && lab in s.mem && !HeldByOther(s.mem[lab], owner) && !Expired(s.mem[lab], s.now)
  }

  function Renewed(l: Lifetime, now: nat, seconds: int): Lifetime {
    var ttl := ClampTTL(if seconds <= 0 && l.ttl > 0 then l.ttl else seconds);
    var until := now + ttl * SECOND;
    l.(ttl := ttl, expires := if l.hard != 0 && until > l.hard then l.hard else until, restored := false)
  }

  function RenewStep(s: State, lab: Lab, owner: string, seconds: int, ok: bool): State {
    if !CanRenew(s, lab, owner) || !ok then s
    else
      var mem := s.mem[lab := Renewed(s.mem[lab], s.now, seconds)];
      State(s.now, mem, mem)
  }

  function ReleaseStep(s: State, lab: Lab, owner: string, ok: bool): State {
    if lab != "" && lab in s.mem && !HeldByOther(s.mem[lab], owner) && ok
    then State(s.now, s.mem - {lab}, s.mem - {lab}) else s
  }

  // ---------- the end of a lifetime ----------

  /** A redeploy without the ephemeral marker. */
  function ForgetStep(s: State, lab: Lab, ok: bool): State {
    if lab in s.mem && ok then State(s.now, s.mem - {lab}, s.mem - {lab}) else s
  }

  /** The end of a reclamation; a failed save is only logged. */
  function DropStep(s: State, lab: Lab, ok: bool): State {
    if lab !in s.mem then s
    else State(s.now, s.mem - {lab}, if ok then s.mem - {lab} else s.disk)
  }

  /** The part of a destroy that concerns lifetimes. */
  function DestroyStep(s: State, lab: Lab, ok: bool): State {
    if ok then State(s.now, s.mem - {lab}, s.mem - {lab}) else s
  }

  // ---------- restart ----------

  /** A record from before the ceiling existed gets one. */
  function Migrated(l: Lifetime, now: nat): Lifetime {
    if l.hard != 0 then l
    else l.(hard := (if l.created != 0 then l.created else now) + MAX_LIFETIME)
  }

  function Loaded(disk: Lifetimes, now: nat): Lifetimes {
    map lab | lab in disk :: Migrated(disk[lab], now)
  }

  /** A disposable topology without a lifetime gets a bounded one. */
  function Restored(now: nat, seconds: int): Lifetime {
    var ttl := ClampTTL(seconds);
    Starting(now, "", if ttl < RESTART_GRACE_SECONDS then RESTART_GRACE_SECONDS else ttl).(restored := true)
  }

  /** `marked` holds the requested seconds of every topology marked disposable. */
  function WithRestored(loaded: Lifetimes, marked: map<Lab, int>, now: nat): Lifetimes {
    map lab | lab in loaded.Keys + marked.Keys ::
      if lab in loaded then loaded[lab] else Restored(now, marked[lab])
  }

  /** `ok1` is the save after a migration, `ok2` the one after a restored lifetime. */
  function RestartStep(s: State, readable: bool, marked: map<Lab, int>, ok1: bool, ok2: bool): State {
    var loaded := if readable then Loaded(s.disk, s.now) else map[];
    var disk := if readable && loaded != s.disk && ok1 then loaded else s.disk;
    var mem := WithRestored(loaded, marked, s.now);
    State(s.now, mem, if mem != loaded && ok2 then mem else disk)
  }

  // ---------- runs ----------

  datatype Event =
    | Tick(elapsed: nat)
    | Note(lab: Lab, owner: string, seconds: int, ok: bool)
    | Renew(lab: Lab, owner: string, seconds: int, ok: bool)
    | Release(lab: Lab, owner: string, ok: bool)
    | Forget(lab: Lab, ok: bool)
    | Drop(lab: Lab, ok: bool)
    | Destroy(lab: Lab, ok: bool)
    | OtherSave(ok: bool)
    | Restart(readable: bool, marked: map<Lab, int>, ok1: bool, ok2: bool)

  function Step(s: State, e: Event): State {
    match e
    case Tick(d) => s.(now := s.now + d)
    case Note(lab, owner, seconds, ok) => NoteStep(s, lab, owner, seconds, ok)
    case Renew(lab, owner, seconds, ok) => RenewStep(s, lab, owner, seconds, ok)
    case Release(lab, owner, ok) => ReleaseStep(s, lab, owner, ok)
    case Forget(lab, ok) => ForgetStep(s, lab, ok)
    case Drop(lab, ok) => DropStep(s, lab, ok)
    case Destroy(lab, ok) => DestroyStep(s, lab, ok)
    case OtherSave(ok) => s.(disk := if ok then s.mem else s.disk)
    case Restart(readable, marked, ok1, ok2) => RestartStep(s, readable, marked, ok1, ok2)
  }

  /** A journalled record is from before the ceiling existed, or carries it. */
  predicate GoodRecord(l: Lifetime, now: nat) {
    && l.expires != 0 && l.created <= now
    && (l.hard == 0 || l.hard <= now + MAX_LIFETIME)
    && (l.created != 0 && l.hard != 0 ==> l.hard == l.created + MAX_LIFETIME)
  }

  /** The journal may come from an older agent; nothing is in memory yet. */
  ghost predicate Init(s: State) {
    s.now > 0 && s.mem == map[] && forall lab :: lab in s.disk ==> GoodRecord(s.disk[lab], s.now)
  }

  ghost predicate StepAt(ss: seq<State>, es: seq<Event>, i: nat)
    requires |ss| == |es| + 1 && i < |es|
  {
    ss[i + 1] == Step(ss[i], es[i])
  }

  ghost predicate IsRun(ss: seq<State>, es: seq<Event>) {
    && |ss| == |es| + 1
    && Init(ss[0])
    && forall i | 0 <= i < |es| :: StepAt(ss, es, i)
  }

  /** Every restart of the run could read the journal. */
  ghost predicate Durable(es: seq<Event>) {
    forall i | 0 <= i < |es| :: Readable(es[i])
  }

  predicate Readable(e: Event) { e.Restart? ==> e.readable }
}
