/** Clients of the operation lease, interleaved at every lock and channel operation. */
module OperationClients {
  import opened Common
  import opened OperationLeases

  type Client = nat

  /**
   Where a client is: it holds the lease of a lab, waits for the done channel
   of another operation, or has removed its entry and still has to close its
   own channel. `byId` says which of the two releases it will use.
   */
  datatype Place =
    | Idle
    | Waiting(lab: Lab, on: nat, goal: Goal)
    | Holding(lab: Lab, id: nat, byId: bool)
    | Closing(id: nat)

  /** `owners` remembers who published each operation; `closed` holds the closed channels. */
  datatype State = State(
    now: nat, ops: Ops, closed: set<nat>, owners: map<nat, Client>, places: map<Client, Place>)

  function PlaceOf(s: State, c: Client): Place {
    if c in s.places then s.places[c] else Idle
  }

  function Move(s: State, c: Client, p: Place): State {
    s.(places := s.places[c := p])
  }

  /** An uncancellable operation may be released without naming it. */
  datatype Event =
    | Tick(elapsed: nat)
    | Acquire(client: Client, lab: Lab, kind: string, cancellable: bool, byId: bool)
    | Start(client: Client, lab: Lab, goal: Goal)
    | Retry(client: Client)
    | GiveUp(client: Client)
    | Release(client: Client)
    | Close(client: Client)

  function Owned(s: State, ops: Ops, c: Client, lab: Lab, id: nat, byId: bool): State {
    Move(s, c, Holding(lab, id, byId)).(ops := ops, owners := s.owners[id := c])
  }

  function TryStep(s: State, c: Client, lab: Lab, goal: Goal): State {
    var (ops, attempt) := Try(s.ops, s.now, lab, goal);
    match attempt
    case Published(id) => Owned(s, ops, c, lab, id, true)
    case MustWait(on) => Move(s, c, Waiting(lab, on, goal))
    case Refused => Move(s, c, Idle)
  }

  function AcquireStep(s: State, c: Client, lab: Lab, kind: string, cancellable: bool, byId: bool): State {
    if lab == "" || lab in s.ops.held then s
    else Owned(s, Publish(s.ops, lab, kind, 0, cancellable), c, lab, s.ops.sequence + 1, byId)
  }

  function ReleaseStep(s: State, c: Client, lab: Lab, id: nat, byId: bool): State {
    if !byId then Move(s, c, Idle).(ops := RemoveAny(s.ops, lab))
    else
      Move(s, c, if lab in s.ops.held && s.ops.held[lab].cancellable then Closing(id) else Idle)
        .(ops := RemoveId(s.ops, lab, id))
  }

  function Step(s: State, e: Event): State {
    match e
    case Tick(d) => s.(now := s.now + d)
    case Acquire(c, lab, kind, cancellable, byId) =>
      if PlaceOf(s, c).Idle? then AcquireStep(s, c, lab, kind, cancellable, byId) else s
    case Start(c, lab, goal) => if PlaceOf(s, c).Idle? && lab != "" then TryStep(s, c, lab, goal) else s
    case Retry(c) =>
      var p := PlaceOf(s, c);
      if p.Waiting? && p.on in s.closed then TryStep(s, c, p.lab, p.goal) else s
    case GiveUp(c) => if PlaceOf(s, c).Waiting? then Move(s, c, Idle) else s
    case Release(c) =>
      var p := PlaceOf(s, c);
      if p.Holding? then ReleaseStep(s, c, p.lab, p.id, p.byId) else s
    case Close(c) =>
      var p := PlaceOf(s, c);
      if p.Closing? then Move(s, c, Idle).(closed := s.closed + {p.id}) else s
  }

  /** A cancellable operation is always released by its id. */
  predicate Allowed(e: Event) { e.Acquire? && e.cancellable ==> e.byId }

  ghost predicate Init(s: State) {
    s.ops == Ops(map[], 0) && s.closed == {} && s.owners == map[] && s.places == map[]
  }

  ghost predicate StepAt(ss: seq<State>, es: seq<Event>, i: nat)
    requires |ss| == |es| + 1 && i < |es|
  {
    Allowed(es[i]) && ss[i + 1] == Step(ss[i], es[i])
  }

  ghost predicate IsRun(ss: seq<State>, es: seq<Event>) {
    && |ss| == |es| + 1
    && Init(ss[0])
    && forall i | 0 <= i < |es| :: StepAt(ss, es, i)
  }

  // ---------- the invariant ----------

  /** The entry of a lab belongs to the client that published it, which still holds it. */
  ghost predicate EntryOwned(s: State, lab: Lab)
    requires lab in s.ops.held
  {
    var op := s.ops.held[lab];
    && 0 < op.id <= s.ops.sequence
    && op.id in s.owners
    && op.id !in s.closed
    && var p := PlaceOf(s, s.owners[op.id]);
    && p.Holding? && p.lab == lab && p.id == op.id && (op.cancellable ==> p.byId)
  }

  /** What the place of a client says about the table. */
  ghost predicate PlaceFits(s: State, c: Client) {
    match PlaceOf(s, c)
    case Idle => true
    case Waiting(_, on, _) => 0 < on <= s.ops.sequence && on in s.owners
    case Holding(lab, id, _) =>
      && lab in s.ops.held && s.ops.held[lab].id == id && id in s.owners && s.owners[id] == c
    case Closing(id) => 0 < id <= s.ops.sequence && Unlisted(s, id)
  }

  ghost predicate Unlisted(s: State, id: nat) {
    forall lab :: lab in s.ops.held ==> s.ops.held[lab].id != id
  }

  ghost predicate Inv(s: State) {
    && (forall lab :: lab in s.ops.held ==> EntryOwned(s, lab))
    && (forall c: Client :: PlaceFits(s, c))
    && (forall id :: id in s.owners ==> 0 < id <= s.ops.sequence)
    && (forall id :: id in s.closed ==> id <= s.ops.sequence)
  }

  lemma OwnedKeeps(s: State, c: Client, lab: Lab, op: Op, byId: bool)
    requires Inv(s) && !PlaceOf(s, c).Holding? && !PlaceOf(s, c).Closing? && lab !in s.ops.held
    requires op.id == s.ops.sequence + 1 && (op.cancellable ==> byId)
    ensures Inv(Owned(s, Ops(s.ops.held[lab := op], op.id), c, lab, op.id, byId))
  {
    var s' := Owned(s, Ops(s.ops.held[lab := op], op.id), c, lab, op.id, byId);
    forall x | x in s'.ops.held ensures EntryOwned(s', x) {
      if x != lab { assert EntryOwned(s, x); }
    }
    forall d: Client ensures PlaceFits(s', d) {
      assert PlaceFits(s, d);
    }
  }

  lemma MoveKeeps(s: State, c: Client, p: Place)
    requires Inv(s) && !PlaceOf(s, c).Holding?
    requires p.Idle? || (p.Waiting? && p.on in s.owners)
    ensures Inv(Move(s, c, p))
  {
    var s' := Move(s, c, p);
    forall x | x in s'.ops.held ensures EntryOwned(s', x) {
      assert EntryOwned(s, x);
    }
    forall d: Client ensures PlaceFits(s', d) {
      assert PlaceFits(s, d);
    }
  }

  lemma TryKeeps(s: State, c: Client, lab: Lab, goal: Goal)
    requires Inv(s) && !PlaceOf(s, c).Holding? && !PlaceOf(s, c).Closing?
    ensures Inv(TryStep(s, c, lab, goal))
  {
    if lab !in s.ops.held {
      OwnedKeeps(s, c, lab, PublishGoal(s.ops, lab, goal).held[lab], true);
    } else {
      assert EntryOwned(s, lab);
      MoveKeeps(s, c, Idle);
      MoveKeeps(s, c, Waiting(lab, s.ops.held[lab].id, goal));
    }
  }

  lemma ReleaseKeeps(s: State, c: Client)
    requires Inv(s) && PlaceOf(s, c).Holding?
    ensures var p := PlaceOf(s, c);
            var s' := ReleaseStep(s, c, p.lab, p.id, p.byId);
            Inv(s') && s'.ops.held == s.ops.held - {p.lab}
  {
    assert PlaceFits(s, c);
    var p := PlaceOf(s, c);
    var s' := ReleaseStep(s, c, p.lab, p.id, p.byId);
    assert EntryOwned(s, p.lab);
    forall x | x in s'.ops.held ensures EntryOwned(s', x) {
      assert EntryOwned(s, x);
    }
    forall d: Client ensures PlaceFits(s', d) {
      assert PlaceFits(s, d);
      forall x | x in s'.ops.held ensures s'.ops.held[x].id != p.id {
        assert EntryOwned(s, x);
      }
    }
  }

  lemma CloseKeeps(s: State, c: Client)
    requires Inv(s) && PlaceOf(s, c).Closing?
    ensures Inv(Step(s, Close(c)))
  {
    assert PlaceFits(s, c);
    var s' := Step(s, Close(c));
    forall x | x in s'.ops.held ensures EntryOwned(s', x) {
      assert EntryOwned(s, x);
    }
    forall d: Client ensures PlaceFits(s', d) {
      assert PlaceFits(s, d);
    }
  }

  lemma StepKeeps(s: State, e: Event)
    requires Inv(s) && Allowed(e)
    ensures Inv(Step(s, e))
  {
    match e
    case Tick(d) =>
      var s' := Step(s, e);
      forall x | x in s'.ops.held ensures EntryOwned(s', x) {
        assert EntryOwned(s, x);
      }
      forall c: Client ensures PlaceFits(s', c) {
        assert PlaceFits(s, c);
      }
    case Acquire(c, lab, kind, cancellable, byId) =>
      if PlaceOf(s, c).Idle? && lab != "" && lab !in s.ops.held {
        OwnedKeeps(s, c, lab, Op(s.ops.sequence + 1, kind, 0, cancellable), byId);
      }
    case Start(c, lab, goal) => if PlaceOf(s, c).Idle? { TryKeeps(s, c, lab, goal); }
    case Retry(c) =>
      var p := PlaceOf(s, c);
      if p.Waiting? { TryKeeps(s, c, p.lab, p.goal); }
    case GiveUp(c) => if PlaceOf(s, c).Waiting? { MoveKeeps(s, c, Idle); }
    case Release(c) => if PlaceOf(s, c).Holding? { ReleaseKeeps(s, c); }
    case Close(c) => if PlaceOf(s, c).Closing? { CloseKeeps(s, c); }
  }

  lemma {:induction false} RunKeeps(ss: seq<State>, es: seq<Event>, n: nat)
    requires IsRun(ss, es) && n < |ss|
    ensures Inv(ss[n])
  {
    if n > 0 {
      assert StepAt(ss, es, n - 1);
      RunKeeps(ss, es, n - 1);
      StepKeeps(ss[n - 1], es[n - 1]);
    }
  }

  // ---------- mutual exclusion ----------

  predicate Holds(s: State, c: Client, lab: Lab) {
    PlaceOf(s, c).Holding? && PlaceOf(s, c).lab == lab
  }

  /** At most one client is between acquire and release of a lab. */
  lemma MutualExclusion(ss: seq<State>, es: seq<Event>, n: nat, c: Client, d: Client, lab: Lab)
    requires IsRun(ss, es) && n < |ss|
    requires Holds(ss[n], c, lab) && Holds(ss[n], d, lab)
    ensures c == d
  {
    RunKeeps(ss, es, n);
    assert PlaceFits(ss[n], c) && PlaceFits(ss[n], d);
  }

  /** An idle client that asks for the lease of a lab holds it afterwards exactly when it was free. */
  lemma AcquiredExactlyWhen(s: State, c: Client, lab: Lab, kind: string, cancellable: bool, byId: bool)
    requires PlaceOf(s, c).Idle?
    ensures var s' := Step(s, Acquire(c, lab, kind, cancellable, byId));
            && (Holds(s', c, lab) <==> lab != "" && lab !in s.ops.held)
            && (Holds(s', c, lab) ==>
                  && s'.ops.held == s.ops.held[lab := Op(s.ops.sequence + 1, kind, 0, cancellable)]
                  && PlaceOf(s', c).id == s'.ops.sequence == s.ops.sequence + 1)
            && (!Holds(s', c, lab) ==> s' == s)
  {}

  /** Whatever others do, the entry of a holder stays until its own release. */
  lemma OnlyOwnReleaseRemoves(ss: seq<State>, es: seq<Event>, n: nat, c: Client, lab: Lab)
    requires IsRun(ss, es) && n < |es|
    requires Holds(ss[n], c, lab) && es[n] != Release(c)
    ensures PlaceOf(ss[n + 1], c) == PlaceOf(ss[n], c)
    ensures lab in ss[n].ops.held && lab in ss[n + 1].ops.held
    ensures ss[n + 1].ops.held[lab] == ss[n].ops.held[lab]
  {
    assert StepAt(ss, es, n);
    RunKeeps(ss, es, n);
    assert PlaceFits(ss[n], c);
    if es[n].Release? {
      assert PlaceFits(ss[n], es[n].client);
    }
  }

  /**
   A client's release, with or without its id, removes exactly its own entry and
   leaves the lab free; the entries of all other labs stay.
   */
  lemma ReleaseRemovesOwnEntry(ss: seq<State>, es: seq<Event>, n: nat, c: Client, lab: Lab)
    requires IsRun(ss, es) && n < |es| && Holds(ss[n], c, lab) && es[n] == Release(c)
    ensures lab in ss[n].ops.held && ss[n].ops.held[lab].id == PlaceOf(ss[n], c).id
    ensures ss[n + 1].ops.held == ss[n].ops.held - {lab} && !Holds(ss[n + 1], c, lab)
  {
    assert StepAt(ss, es, n);
    RunKeeps(ss, es, n);
    assert PlaceFits(ss[n], c);
    ReleaseKeeps(ss[n], c);
  }

  lemma {:induction false} HeldUntilReleased(ss: seq<State>, es: seq<Event>, i: nat, k: nat, c: Client, lab: Lab)
    requires IsRun(ss, es) && i <= k < |ss| && Holds(ss[i], c, lab)
    requires forall m | i <= m < k :: es[m] != Release(c)
    ensures PlaceOf(ss[k], c) == PlaceOf(ss[i], c) && lab in ss[k].ops.held
    decreases k
  {
    if i < k {
      HeldUntilReleased(ss, es, i, k - 1, c, lab);
      OnlyOwnReleaseRemoves(ss, es, k - 1, c, lab);
    } else {
      RunKeeps(ss, es, k);
      assert PlaceFits(ss[k], c);
    }
  }

  /** A done channel is closed only when its operation has left the table for good. */
  lemma ClosedMeansRemoved(ss: seq<State>, es: seq<Event>, n: nat, id: nat)
    requires IsRun(ss, es) && n < |ss| && id in ss[n].closed
    ensures Unlisted(ss[n], id) && id <= ss[n].ops.sequence
  {
    RunKeeps(ss, es, n);
    forall lab | lab in ss[n].ops.held ensures ss[n].ops.held[lab].id != id {
      assert EntryOwned(ss[n], lab);
    }
  }

  /** Client `c` found the lease of `lab` taken by operation `on` and started to wait for it. */
  predicate StartsWaiting(s: State, s': State, c: Client, lab: Lab, on: nat) {
    && lab in s.ops.held && s.ops.held[lab].id == on
    && PlaceOf(s', c).Waiting? && PlaceOf(s', c).lab == lab && PlaceOf(s', c).on == on
    && s'.ops == s.ops && s'.owners == s.owners
  }

  /**
   A client cancels and waits for an operation only if that can be cancelled and
   is a reconciliation, an apply, or a recovery past its deadline that the client
   may take over; every other holder is left to finish.
   */
  lemma WaitsOnlyForPreemptible(ss: seq<State>, es: seq<Event>, i: nat, c: Client)
    requires IsRun(ss, es) && i < |es|
    requires PlaceOf(ss[i + 1], c).Waiting? && PlaceOf(ss[i + 1], c) != PlaceOf(ss[i], c)
    ensures var p := PlaceOf(ss[i + 1], c);
            && StartsWaiting(ss[i], ss[i + 1], c, p.lab, p.on)
            && var op := ss[i].ops.held[p.lab];
               && op.cancellable
               && (|| op.kind == "reconcile" || op.kind == "apply"
                   || (&& op.kind == "recovery" && op.deadline != 0 && op.deadline <= ss[i].now
                       && (match p.goal
                           case Force(_, preemptStale) => preemptStale
                           case Recover(_, takeover) => takeover)))
  {
    assert StepAt(ss, es, i);
  }

  /**
   A client that preempted an operation is published only after the owner of
   that operation removed its own entry.
   */
  lemma PreemptorWaitsForOwner(ss: seq<State>, es: seq<Event>, i: nat, k: nat, c: Client, lab: Lab, on: nat)
    returns (m: nat)
    requires IsRun(ss, es) && i < k < |es|
    requires StartsWaiting(ss[i], ss[i + 1], c, lab, on)
    requires !Holds(ss[k], c, lab) && Holds(ss[k + 1], c, lab)
    ensures on in ss[i].owners
    ensures i < m < k && es[m] == Release(ss[i].owners[on])
  {
    RunKeeps(ss, es, i + 1);
    RunKeeps(ss, es, i);
    assert EntryOwned(ss[i], lab);
    var owner := ss[i].owners[on];
    assert EntryOwned(ss[i + 1], lab);
    assert StepAt(ss, es, k);
    if forall m | i < m < k :: es[m] != Release(owner) {
      HeldUntilReleased(ss, es, i + 1, k, owner, lab);
      RunKeeps(ss, es, k);
      assert false;
    }
    m :| i < m < k && es[m] == Release(owner);
  }
}
