/**
 The operation lease of a lab: one operation at a time, with recovery, forced
 destroy and reclamation able to cancel certain operations and wait for them.
 */
module OperationLeases {
  import opened Common

  /** `cancellable` operations carry a cancel function and a done channel. */
  datatype Op = Op(id: nat, kind: string, deadline: nat, cancellable: bool)

  datatype Ops = Ops(held: map<Lab, Op>, sequence: nat)

  /** What a caller that may preempt is after. */
  datatype Goal =
    | Force(kind: string, preemptStale: bool)
    | Recover(deadline: nat, takeover: bool)

  datatype Attempt = Published(id: nat) | MustWait(on: nat) | Refused

  function Publish(t: Ops, lab: Lab, kind: string, deadline: nat, cancellable: bool): Ops {
    Ops(t.held[lab := Op(t.sequence + 1, kind, deadline, cancellable)], t.sequence + 1)
  }

  /** Reconciliation and apply yield; a recovery past its deadline yields when the caller may take it. */
  predicate Preemptible(op: Op, now: nat, takesStale: bool) {
    && op.cancellable
    && (|| op.kind == "reconcile"
        || op.kind == "apply"
        || (takesStale && op.kind == "recovery" && op.deadline != 0 && op.deadline <= now))
  }

  function TakesStale(goal: Goal): bool {
    match goal
    case Force(_, preemptStale) => preemptStale
    case Recover(_, takeover) => takeover
  }

  function PublishGoal(t: Ops, lab: Lab, goal: Goal): Ops {
    match goal
    case Force(kind, _) => Publish(t, lab, kind, 0, false)
    case Recover(deadline, _) => Publish(t, lab, "recovery", deadline, true)
  }

  /** One pass of the preempting loops, between taking and dropping the lock. */
  function Try(t: Ops, now: nat, lab: Lab, goal: Goal): (Ops, Attempt) {
    if lab !in t.held then (PublishGoal(t, lab, goal), Published(t.sequence + 1))
    else if Preemptible(t.held[lab], now, TakesStale(goal)) then (t, MustWait(t.held[lab].id))
    else (t, Attempt.Refused)
  }

  /** Removes the entry of one operation, and of no other. */
  function RemoveId(t: Ops, lab: Lab, id: nat): Ops {
    if lab in t.held && t.held[lab].id == id then t.(held := t.held - {lab}) else t
  }

  /** Removes whatever entry the lab has. */
  function RemoveAny(t: Ops, lab: Lab): Ops { t.(held := t.held - {lab}) }

  // ---------- the source's methods ----------

  class Server {
    var now: nat
    var ops: map<Lab, Op>
    var opSequence: nat
    /** The operations whose cancel function was called. */
    var cancelled: set<nat>

    ghost function Abs(): Ops
      reads this
    {
      Ops(ops, opSequence)
    }

    constructor (clock: nat)
      ensures Abs() == Ops(map[], 0) && cancelled == {} && now == clock
    {
      now, ops, opSequence, cancelled := clock, map[], 0, {};
    }

    method AcquireOperation(lab: Lab, kind: string, cancellable: bool) returns (id: Option<nat>)
      modifies this`ops, this`opSequence
      ensures Abs() == (if lab == "" || lab in old(ops) then old(Abs())
                        else Publish(old(Abs()), lab, kind, 0, cancellable))
      ensures id == if lab == "" || lab in old(ops) then None else Some(opSequence)
      ensures id.Some? ==>
        opSequence == old(opSequence) + 1 && ops == old(ops)[lab := Op(opSequence, kind, 0, cancellable)]
      ensures id.None? ==> ops == old(ops) && opSequence == old(opSequence)
    {
      if lab == "" || lab in ops { return None; }
      opSequence := opSequence + 1;
      ops := ops[lab := Op(opSequence, kind, 0, cancellable)];
      id := Some(opSequence);
    }

    /** One pass of the loop that forces an operation. */
    method TryForced(lab: Lab, kind: string, preemptStaleRecovery: bool) returns (attempt: Attempt)
      modifies this`ops, this`opSequence, this`cancelled
      ensures (Abs(), attempt) == Try(old(Abs()), now, lab, Force(kind, preemptStaleRecovery))
      ensures cancelled == old(cancelled) + (if attempt.MustWait? then {attempt.on} else {})
      ensures attempt.Published? <==> lab !in old(ops)
      ensures attempt.Published? ==>
        && opSequence == attempt.id == old(opSequence) + 1
        && ops == old(ops)[lab := Op(attempt.id, kind, 0, false)]
      ensures attempt.MustWait? <==>
        && lab in old(ops) && ops == old(ops) && ops[lab].cancellable
        && (|| ops[lab].kind == "reconcile" || ops[lab].kind == "apply"
            || (&& preemptStaleRecovery && ops[lab].kind == "recovery" && ops[lab].deadline != 0
                && ops[lab].deadline <= now))
      ensures attempt.MustWait? ==> attempt.on == ops[lab].id
    {
      if lab !in ops {
        opSequence := opSequence + 1;
        ops := ops[lab := Op(opSequence, kind, 0, false)];
        return Published(opSequence);
      }
      var held := ops[lab];
      var staleRecovery := preemptStaleRecovery && held.kind == "recovery" &&
        held.deadline != 0 && held.deadline <= now;
      if !(held.cancellable && (held.kind == "reconcile" || held.kind == "apply" || staleRecovery)) {
        return Attempt.Refused;
      }
      cancelled := cancelled + {held.id};
      attempt := MustWait(held.id);
    }

    /** One pass of the loop that gives durable recovery its priority. */
    method TryRecovery(lab: Lab, deadline: nat, takeover: bool) returns (attempt: Attempt)
      modifies this`ops, this`opSequence, this`cancelled
      ensures (Abs(), attempt) == Try(old(Abs()), now, lab, Recover(deadline, takeover))
      ensures cancelled == old(cancelled) + (if attempt.MustWait? then {attempt.on} else {})
      ensures attempt.Published? <==> lab !in old(ops)
      ensures attempt.Published? ==>
        && opSequence == attempt.id == old(opSequence) + 1
        && ops == old(ops)[lab := Op(attempt.id, "recovery", deadline, true)]
      ensures attempt.MustWait? <==>
        && lab in old(ops) && ops == old(ops) && ops[lab].cancellable
        && (|| ops[lab].kind == "reconcile" || ops[lab].kind == "apply"
            || (&& takeover && ops[lab].kind == "recovery" && ops[lab].deadline != 0
                && ops[lab].deadline <= now))
      ensures attempt.MustWait? ==> attempt.on == ops[lab].id
    {
      if lab !in ops {
        opSequence := opSequence + 1;
        ops := ops[lab := Op(opSequence, "recovery", deadline, true)];
        return Published(opSequence);
      }
      var held := ops[lab];
      var staleRecovery := held.kind == "recovery" && held.deadline != 0 && held.deadline <= now;
      if !(held.cancellable
           && (held.kind == "reconcile" || held.kind == "apply" || (staleRecovery && takeover))) {
        return Attempt.Refused;
      }
      cancelled := cancelled + {held.id};
      attempt := MustWait(held.id);
    }

    method ReleaseOperation(lab: Lab, id: nat)
      modifies this`ops
      ensures Abs() == RemoveId(old(Abs()), lab, id)
    {
      if lab in ops && ops[lab].id == id {
        ops := ops - {lab};
      }
    }

    method Release(lab: Lab)
      modifies this`ops
      ensures Abs() == RemoveAny(old(Abs()), lab)
    {
      ops := ops - {lab};
    }
  }
}
