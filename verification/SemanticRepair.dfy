/**
 Bounded repair of a drifted device: backoff between attempts, a bounded number
 of semantic repair cycles, a terminal state, and the resets of both.
 */
module SemanticRepair {
  import opened Common
  import opened DriftRepair

  const ATTEMPTS_BEFORE_GIVING_UP: nat := 3
  const SEMANTIC_CYCLES: nat := 3
  const BACKOFF_BASE: nat := SECOND
  const BACKOFF_MAX: nat := 300 * SECOND

  // ---------- keys ----------

  function Key(lab: string, id: string): string { lab + "|" + id }

  /** The text before the first separator, or nothing without one. */
  function KeyLab(key: string): string {
    if key == "" || '|' !in key then ""
    else if key[0] == '|' then ""
    else [key[0]] + KeyLab(key[1..])
  }

  lemma {:induction false} KeyLabIsBefore(before: string, after: string)
    requires '|' !in before
    ensures KeyLab(before + "|" + after) == before
  {
    var key := before + "|" + after;
    assert key[|before|] == '|';
    if before != "" {
      assert key[1..] == before[1..] + "|" + after;
      KeyLabIsBefore(before[1..], after);
      assert before == [before[0]] + before[1..];
    } else {
      assert key[0] == '|';
    }
  }

  lemma {:induction false} KeyLabHasNoSeparator(key: string)
    ensures '|' !in KeyLab(key)
  {
    if key != "" && '|' in key && key[0] != '|' {
      KeyLabHasNoSeparator(key[1..]);
    }
  }

  /** The lab of a key can be read back exactly when its name has no separator. */
  lemma KeyLabExactlyWhen(lab: string, id: string)
    ensures KeyLab(Key(lab, id)) == lab <==> '|' !in lab
  {
    if '|' !in lab {
      KeyLabIsBefore(lab, id);
    } else {
      KeyLabHasNoSeparator(Key(lab, id));
    }
  }

  method RepairKeyLab(key: string) returns (lab: string)
    ensures lab == KeyLab(key)
  {
    var i := 0;
    while i < |key|
      invariant i <= |key| && '|' !in key[..i]
    {
      if key[i] == '|' {
        assert key == key[..i] + "|" + key[i + 1..];
        KeyLabIsBefore(key[..i], key[i + 1..]);
        return key[..i];
      }
      assert key[..i + 1] == key[..i] + [key[i]];
      i := i + 1;
    }
    assert key[..|key|] == key;
    lab := "";
  }

  // ---------- backoff ----------

  function Doubled(n: nat): nat { if n == 0 then 1 else 2 * Doubled(n - 1) }

  function Min(a: nat, b: nat): nat { if a <= b then a else b }

  /** Doubling from one second, capped at five minutes. */
  function Delay(attempt: int): nat {
    Min(BACKOFF_BASE * Doubled(if attempt < 1 then 0 else attempt - 1), BACKOFF_MAX)
  }

  lemma {:induction false} DoubledGrows(m: nat, n: nat)
    requires m <= n
    ensures Doubled(m) <= Doubled(n)
    decreases n
  {
    if m < n { DoubledGrows(m, n - 1); }
  }

  /** The first delay is one second, and each is twice the one before up to five minutes. */
  lemma DelayDoubles(attempt: int)
    ensures attempt <= 1 ==> Delay(attempt) == SECOND
    ensures attempt >= 1 ==>
              Delay(attempt + 1) == if 2 * Delay(attempt) <= 300 * SECOND then 2 * Delay(attempt) else 300 * SECOND
  {
    assert Doubled(0) == 1;
    if attempt >= 1 {
      assert Doubled(attempt) == 2 * Doubled(attempt - 1);
    }
  }

  method RepairDelay(attempt: int) returns (delay: nat)
    ensures delay == Delay(attempt)
  {
    var n := if attempt < 1 then 1 else attempt;
    delay := BACKOFF_BASE;
    var i := 1;
    while i < n
      invariant 1 <= i <= n
      invariant delay == BACKOFF_BASE * Doubled(i - 1)
    {
      if delay >= BACKOFF_MAX {
        DoubledGrows(i - 1, n - 1);
        return BACKOFF_MAX;
      }
      delay := delay * 2;
      i := i + 1;
    }
    if delay > BACKOFF_MAX { delay := BACKOFF_MAX; }
  }

  // ---------- the records ----------

  datatype Repairs = Repairs(
    now: nat, fails: map<string, nat>, next: map<string, nat>,
    cycles: map<string, nat>, terminal: map<string, string>)

  function Count(m: map<string, nat>, key: string): nat {
    if key in m then m[key] else 0
  }

  function TerminalReason(r: Repairs, key: string): string {
    if key in r.terminal then r.terminal[key] else ""
  }

  /** The device is in backoff. */
  predicate GivingUp(r: Repairs, key: string) {
    && Count(r.fails, key) >= ATTEMPTS_BEFORE_GIVING_UP
    && Count(r.next, key) != 0 && r.now < Count(r.next, key)
  }

  function FailedStep(r: Repairs, key: string): Repairs {
    var n := Count(r.fails, key) + 1;
    r.(fails := r.fails[key := n], next := r.next[key := r.now + Delay(n)])
  }

  /** A repair cycle that did not converge: another bounded retry, or the terminal state. */
  function DeferStep(r: Repairs, key: string, reason: string): Repairs {
    var n := if Count(r.fails, key) + 1 < ATTEMPTS_BEFORE_GIVING_UP then ATTEMPTS_BEFORE_GIVING_UP
             else Count(r.fails, key) + 1;
    var cycle := Count(r.cycles, key) + 1;
    r.(fails := r.fails[key := n], next := r.next[key := r.now + Delay(n)],
       cycles := r.cycles[key := cycle],
       terminal := if cycle >= SEMANTIC_CYCLES then r.terminal[key := reason] else r.terminal)
  }

  function SucceededStep(r: Repairs, key: string): Repairs {
    r.(fails := r.fails - {key}, next := r.next - {key}, cycles := r.cycles - {key}, terminal := r.terminal - {key})
  }

  /** The keys a new convergence budget clears. */
  function Refreshed(r: Repairs, lab: string): set<string> {
    set key | key in r.cycles && KeyLab(key) == lab
  }

  function GraceStep(r: Repairs, lab: string): Repairs {
    if lab == "" then r else Without(r, Refreshed(r, lab))
  }

  predicate OfLab(key: string, lab: string) { lab + "|" <= key }

  /** A finished recovery or destroy clears the backoff of a lab only. */
  function BackoffStep(r: Repairs, lab: string): Repairs {
    r.(fails := map key | key in r.fails && !OfLab(key, lab) :: r.fails[key],
       next := map key | key in r.next && !OfLab(key, lab) :: r.next[key])
  }

  function ForgetStep(r: Repairs, lab: string): Repairs {
    var b := BackoffStep(r, lab);
    b.(cycles := map key | key in r.cycles && !OfLab(key, lab) :: r.cycles[key],
       terminal := map key | key in r.terminal && !OfLab(key, lab) :: r.terminal[key])
  }

  // ---------- one pass over a device ----------

  /** What a pass sees, what a repair cycle meets, and whether another fault could be repaired. */
  datatype Finding = Finding(observed: Observation, answers: Answers, repaired: bool)

  predicate IsDrift(found: Finding) {
    found.observed.health == Broken && IsSemanticOnlyDrift(found.observed.reason)
  }

  function PassStep(r: Repairs, key: string, forced: bool, found: Finding): Repairs {
    if GivingUp(r, key) && !forced then r
    else if found.observed.health == Healthy then SucceededStep(r, key)
    else if found.observed.health != Broken then r
    else if !IsDrift(found) then
      if found.repaired then SucceededStep(r, key) else FailedStep(r, key)
    else if TerminalReason(r, key) != "" && !forced then r
    else CycleStep(r, key, CycleFailure(found.observed, found.answers))
  }

  function CycleStep(r: Repairs, key: string, failure: Option<string>): Repairs {
    if failure.None? then SucceededStep(r, key) else DeferStep(r, key, failure.value)
  }

  datatype Event =
    | Tick(elapsed: nat)
    | Pass(lab: string, id: string, forced: bool, found: Finding)
    | Grace(lab: string)
    | Settled(lab: string)
    | Forget(lab: string)
    | Restart

  function Step(r: Repairs, e: Event): Repairs {
    match e
    case Tick(d) => r.(now := r.now + d)
    case Pass(lab, id, forced, found) => PassStep(r, Key(lab, id), forced, found)
    case Grace(lab) => GraceStep(r, lab)
    case Settled(lab) => BackoffStep(r, lab)
    case Forget(lab) => ForgetStep(r, lab)
    case Restart => Repairs(r.now, map[], map[], map[], map[])
  }

  ghost predicate Init(r: Repairs) {
    r.fails == map[] && r.next == map[] && r.cycles == map[] && r.terminal == map[]
  }

  ghost predicate StepAt(ss: seq<Repairs>, es: seq<Event>, i: nat)
    requires |ss| == |es| + 1 && i < |es|
  {
    ss[i + 1] == Step(ss[i], es[i])
  }

  ghost predicate IsRun(ss: seq<Repairs>, es: seq<Event>) {
    && |ss| == |es| + 1
    && Init(ss[0])
    && forall i | 0 <= i < |es| :: StepAt(ss, es, i)
  }

  // ---------- the source's methods ----------

  class Server {
    var now: nat
    var repairFails: map<string, nat>
    var repairNext: map<string, nat>
    var semanticCycles: map<string, nat>
    var repairTerminal: map<string, string>

    ghost function Abs(): Repairs
      reads this
    {
      Repairs(now, repairFails, repairNext, semanticCycles, repairTerminal)
    }

    constructor (clock: nat)
      ensures Init(Abs()) && now == clock
    {
      now, repairFails, repairNext, semanticCycles, repairTerminal := clock, map[], map[], map[], map[];
    }

    method GivingUpOn(lab: string, id: string) returns (backoff: bool)
      ensures backoff <==> GivingUp(Abs(), Key(lab, id))
      ensures backoff <==>
        && Key(lab, id) in repairFails && repairFails[Key(lab, id)] >= 3
        && Key(lab, id) in repairNext && now < repairNext[Key(lab, id)]
    {
      var k := Key(lab, id);
      if Count(repairFails, k) < ATTEMPTS_BEFORE_GIVING_UP { return false; }
      var until := Count(repairNext, k);
      backoff := until != 0 && now < until;
    }

    method RepairFailed(lab: string, id: string)
      modifies this
      ensures Abs() == FailedStep(old(Abs()), Key(lab, id))
      ensures repairFails == old(repairFails)[Key(lab, id) := Count(old(repairFails), Key(lab, id)) + 1]
      ensures repairNext == old(repairNext)[Key(lab, id) := now + Delay(repairFails[Key(lab, id)])]
      ensures semanticCycles == old(semanticCycles) && repairTerminal == old(repairTerminal) && now == old(now)
    {
      var k := Key(lab, id);
      var n := Count(repairFails, k) + 1;
      repairFails := repairFails[k := n];
      var delay := RepairDelay(n);
      repairNext := repairNext[k := now + delay];
    }

    method DeferSemanticRepair(lab: string, id: string, reason: string) returns (terminal: bool)
      modifies this
      ensures Abs() == DeferStep(old(Abs()), Key(lab, id), reason)
      ensures terminal <==> Count(semanticCycles, Key(lab, id)) >= SEMANTIC_CYCLES
      ensures GivingUp(Abs(), Key(lab, id))
      ensures semanticCycles == old(semanticCycles)[Key(lab, id) := Count(old(semanticCycles), Key(lab, id)) + 1]
      ensures repairTerminal == if terminal then old(repairTerminal)[Key(lab, id) := reason] else old(repairTerminal)
    {
      var k := Key(lab, id);
      var n := Count(repairFails, k) + 1;
      if n < ATTEMPTS_BEFORE_GIVING_UP { n := ATTEMPTS_BEFORE_GIVING_UP; }
      repairFails := repairFails[k := n];
      var delay := RepairDelay(n);
      DelayIsPositive(n);
      repairNext := repairNext[k := now + delay];
      var cycle := Count(semanticCycles, k) + 1;
      semanticCycles := semanticCycles[k := cycle];
      terminal := cycle >= SEMANTIC_CYCLES;
      if terminal { repairTerminal := repairTerminal[k := reason]; }
    }

    method RepairSucceeded(lab: string, id: string)
      modifies this
      ensures Abs() == SucceededStep(old(Abs()), Key(lab, id))
    {
      var k := Key(lab, id);
      repairFails, repairNext := repairFails - {k}, repairNext - {k};
      semanticCycles, repairTerminal := semanticCycles - {k}, repairTerminal - {k};
    }

    /** One pass over a device: skip it in backoff, look at it, repair it within its bounds. */
    method RepairDevice(lab: string, id: string, forced: bool, found: Finding)
      modifies this
      ensures Abs() == PassStep(old(Abs()), Key(lab, id), forced, found)
    {
      var backoff := GivingUpOn(lab, id);
      if backoff && !forced { return; }
      if found.observed.health != Broken {
        if found.observed.health == Healthy { RepairSucceeded(lab, id); }
        return;
      }
      if IsSemanticOnlyDrift(found.observed.reason) {
        var k := Key(lab, id);
        var terminal := if k in repairTerminal then repairTerminal[k] else "";
        if terminal != "" && !forced { return; }
        var failure := CycleFailure(found.observed, found.answers);
        if failure.None? {
          RepairSucceeded(lab, id);
        } else {
          var _ := DeferSemanticRepair(lab, id, failure.value);
        }
        return;
      }
      if found.repaired { RepairSucceeded(lab, id); } else { RepairFailed(lab, id); }
    }

    /** A new committed generation gets its own budget. */
    method BeginSemanticConvergenceGrace(lab: string)
      modifies this
      ensures Abs() == GraceStep(old(Abs()), lab)
      ensures semanticCycles.Keys == set key | key in old(semanticCycles) && !(lab != "" && KeyLab(key) == lab)
      ensures forall key | key !in old(semanticCycles) || lab == "" || KeyLab(key) != lab ::
        && (key in repairTerminal <==> key in old(repairTerminal)) && (key in repairFails <==> key in old(repairFails))
        && (key in repairNext <==> key in old(repairNext))
    {
      if lab == "" { return; }
      var todo, gone := semanticCycles.Keys, {};
      while todo != {}
        invariant todo <= old(semanticCycles).Keys && now == old(now)
        invariant forall x :: x in gone <==> x in old(semanticCycles) && x !in todo && KeyLab(x) == lab
        invariant Abs() == Without(old(Abs()), gone)
        decreases todo
      {
        var key :| key in todo;
        todo := todo - {key};
        var owner := RepairKeyLab(key);
        if owner == lab {
          WithoutOneMore(old(Abs()), gone, key);
          semanticCycles, repairTerminal := semanticCycles - {key}, repairTerminal - {key};
          repairFails, repairNext := repairFails - {key}, repairNext - {key};
          gone := gone + {key};
        }
      }
      assert gone == Refreshed(old(Abs()), lab);
    }
  }

  function Without(r: Repairs, keys: set<string>): Repairs {
    r.(fails := r.fails - keys, next := r.next - keys, cycles := r.cycles - keys, terminal := r.terminal - keys)
  }

  lemma WithoutOneMore(r: Repairs, keys: set<string>, key: string)
    ensures Without(r, keys + {key}) == Without(Without(r, keys), {key})
  {
    assert r.fails - (keys + {key}) == r.fails - keys - {key};
    assert r.next - (keys + {key}) == r.next - keys - {key};
    assert r.cycles - (keys + {key}) == r.cycles - keys - {key};
    assert r.terminal - (keys + {key}) == r.terminal - keys - {key};
  }

  lemma DelayIsPositive(n: int)
    ensures Delay(n) >= BACKOFF_BASE
  {
    DoubledGrows(0, if n < 1 then 0 else n - 1);
  }
}
