/**
 Repair is bounded over whole runs: a device gets at most three unforced failing
 semantic cycles between resets, and a new committed generation starts every
 device of its lab afresh.
 */
module BoundedRepair {
  import opened Common
  import opened DriftRepair
  import opened SemanticRepair

  /** Every terminal device used up its cycles; the cycles of a device are counted from one. */
  ghost predicate Inv(r: Repairs) {
    forall key :: key in r.terminal ==> Count(r.cycles, key) >= SEMANTIC_CYCLES
  }

  lemma StepKeeps(r: Repairs, e: Event)
    requires Inv(r)
    ensures Inv(Step(r, e))
  {}

  /** Every terminal device has at least three recorded cycles, in every reachable state. */
  lemma {:induction false} TerminalUsedItsCycles(ss: seq<Repairs>, es: seq<Event>, n: nat)
    requires IsRun(ss, es) && n < |ss|
    ensures forall key :: key in ss[n].terminal ==> Count(ss[n].cycles, key) >= SEMANTIC_CYCLES
  {
    if n > 0 {
      assert StepAt(ss, es, n - 1);
      TerminalUsedItsCycles(ss, es, n - 1);
      StepKeeps(ss[n - 1], es[n - 1]);
    }
  }

  /** A new committed generation leaves no device of its lab terminal or in backoff of a cycle. */
  lemma GraceClearsLab(ss: seq<Repairs>, es: seq<Event>, n: nat, lab: string, id: string)
    requires IsRun(ss, es) && n < |es| && es[n] == Grace(lab) && lab != "" && '|' !in lab
    ensures Key(lab, id) !in ss[n + 1].terminal && Key(lab, id) !in ss[n + 1].cycles
    ensures Key(lab, id) in ss[n].terminal ==> !GivingUp(ss[n + 1], Key(lab, id))
  {
    assert StepAt(ss, es, n);
    TerminalUsedItsCycles(ss, es, n);
    KeyLabExactlyWhen(lab, id);
  }

  /** A grace leaves the devices of other labs alone. */
  lemma GraceKeepsOtherLabs(r: Repairs, lab: string, key: string)
    requires KeyLab(key) != lab
    ensures TerminalReason(GraceStep(r, lab), key) == TerminalReason(r, key)
    ensures Count(GraceStep(r, lab).cycles, key) == Count(r.cycles, key)
    ensures Count(GraceStep(r, lab).fails, key) == Count(r.fails, key)
  {}

  // ---------- counting cycles ----------

  predicate PassesOver(e: Event, key: string) { e.Pass? && Key(e.lab, e.id) == key }

  /** The step runs a repair cycle of the device that fails. */
  predicate CycleFails(r: Repairs, e: Event, key: string) {
    && PassesOver(e, key) && IsDrift(e.found)
    && CycleFailure(e.found.observed, e.found.answers).Some?
    && (e.forced || (!GivingUp(r, key) && TerminalReason(r, key) == ""))
  }

  /** The step clears the history of the device. */
  predicate Resets(r: Repairs, e: Event, key: string) {
    || e.Restart?
    || (e.Grace? && e.lab != "" && KeyLab(key) == e.lab)
    || (e.Forget? && OfLab(key, e.lab))
    || (PassesOver(e, key) && Step(r, e) == SucceededStep(r, key))
  }

  ghost function UnforcedFailures(ss: seq<Repairs>, es: seq<Event>, i: nat, k: nat, key: string): nat
    requires |ss| == |es| + 1 && i <= k < |ss|
    decreases k
  {
    if i == k then 0
    else
      UnforcedFailures(ss, es, i, k - 1, key) +
      (if CycleFails(ss[k - 1], es[k - 1], key) && !es[k - 1].forced then 1 else 0)
  }

  /** A device that used up its cycles is terminal, with a reason. */
  ghost predicate Stops(r: Repairs, key: string) {
    Count(r.cycles, key) >= SEMANTIC_CYCLES ==> TerminalReason(r, key) != ""
  }

  lemma StepCounts(r: Repairs, e: Event, key: string)
    requires Stops(r, key)
    ensures Stops(Step(r, e), key)
    ensures !Resets(r, e, key) ==>
      Count(Step(r, e).cycles, key) == Count(r.cycles, key) + (if CycleFails(r, e, key) then 1 else 0)
  {
    if e.Pass? {
      FailureIsExplained(e.found.observed, e.found.answers);
    }
  }

  lemma {:induction false} RunStops(ss: seq<Repairs>, es: seq<Event>, n: nat, key: string)
    requires IsRun(ss, es) && n < |ss|
    ensures Stops(ss[n], key)
  {
    if n > 0 {
      assert StepAt(ss, es, n - 1);
      RunStops(ss, es, n - 1, key);
      StepCounts(ss[n - 1], es[n - 1], key);
    }
  }

  /** Between resets a device gets at most three unforced failing cycles. */
  lemma {:induction false} AtMostThreeCycles(ss: seq<Repairs>, es: seq<Event>, i: nat, k: nat, key: string)
    requires IsRun(ss, es) && i <= k < |ss|
    requires forall m | i <= m < k :: !Resets(ss[m], es[m], key)
    ensures UnforcedFailures(ss, es, i, k, key) <= SEMANTIC_CYCLES
    ensures UnforcedFailures(ss, es, i, k, key) <= Count(ss[k].cycles, key)
    decreases k
  {
    if i < k {
      AtMostThreeCycles(ss, es, i, k - 1, key);
      assert StepAt(ss, es, k - 1);
      RunStops(ss, es, k - 1, key);
      StepCounts(ss[k - 1], es[k - 1], key);
    }
  }

  /**
   In every reachable state a device that used up its cycles is terminal with a
   reason, and no unforced pass runs another cycle or changes its history.
   */
  lemma TerminalStops(ss: seq<Repairs>, es: seq<Event>, n: nat, key: string)
    requires IsRun(ss, es) && n < |es| && PassesOver(es[n], key) && !es[n].forced && IsDrift(es[n].found)
    requires Count(ss[n].cycles, key) >= SEMANTIC_CYCLES
    ensures TerminalReason(ss[n], key) != "" && !CycleFails(ss[n], es[n], key) && ss[n + 1] == ss[n]
  {
    assert StepAt(ss, es, n);
    RunStops(ss, es, n, key);
  }

  // ---------- what clears a device ----------

  /** All that is recorded about a device. */
  datatype History = History(fails: nat, next: nat, cycles: nat, terminal: string)

  function HistoryOf(r: Repairs, key: string): History {
    History(Count(r.fails, key), Count(r.next, key), Count(r.cycles, key), TerminalReason(r, key))
  }

  /** A finished recovery clears the backoff of the devices of its lab, and nothing else. */
  lemma SettledClearsBackoff(r: Repairs, lab: string, id: string, key: string)
    ensures HistoryOf(BackoffStep(r, lab), Key(lab, id)) ==
            HistoryOf(r, Key(lab, id)).(fails := 0, next := 0)
    ensures !(lab + "|" <= key) ==> HistoryOf(BackoffStep(r, lab), key) == HistoryOf(r, key)
  {}

  /** Forgetting a lab clears its devices, and no other. */
  lemma ForgetClearsLab(r: Repairs, lab: string, id: string, key: string)
    ensures HistoryOf(ForgetStep(r, lab), Key(lab, id)) == History(0, 0, 0, "")
    ensures !(lab + "|" <= key) ==> HistoryOf(ForgetStep(r, lab), key) == HistoryOf(r, key)
  {}

  /** The device is in backoff, as its history says. */
  predicate BackingOff(h: History, now: nat) { h.fails >= 3 && now < h.next }

  /** A pass keeps the history of every other device. */
  lemma PassKeepsOthers(r: Repairs, key: string, forced: bool, found: Finding, other: string)
    requires other != key
    ensures HistoryOf(PassStep(r, key, forced, found), other) == HistoryOf(r, other)
  {
    var r' := PassStep(r, key, forced, found);
    StepsKeepOthers(r, key, "", other);
    if r' != r && r' != SucceededStep(r, key) && r' != FailedStep(r, key) {
      StepsKeepOthers(r, key, CycleFailure(found.observed, found.answers).value, other);
    }
  }

  lemma StepsKeepOthers(r: Repairs, key: string, reason: string, other: string)
    requires other != key
    ensures HistoryOf(SucceededStep(r, key), other) == HistoryOf(r, other)
    ensures HistoryOf(FailedStep(r, key), other) == HistoryOf(r, other)
    ensures HistoryOf(DeferStep(r, key, reason), other) == HistoryOf(r, other)
  {}

  /** A pass in backoff, over an unclear observation or a terminal device does nothing, unless forced. */
  lemma PassHolds(r: Repairs, key: string, forced: bool, found: Finding)
    requires var h := HistoryOf(r, key);
             || (BackingOff(h, r.now) && !forced)
             || found.observed.health == Unknown
             || (found.observed.health == Broken && DRIFTED <= found.observed.reason && h.terminal != "" && !forced)
    ensures PassStep(r, key, forced, found) == r
  {}

  /** Otherwise a device seen healthy or repaired is cleared, and a failed repair is counted. */
  lemma PassSettles(r: Repairs, key: string, forced: bool, found: Finding)
    requires forced || !BackingOff(HistoryOf(r, key), r.now)
    requires found.observed.health == Healthy
          || (found.observed.health == Broken && !(DRIFTED <= found.observed.reason))
    ensures var before, after := HistoryOf(r, key), HistoryOf(PassStep(r, key, forced, found), key);
            after == if found.observed.health == Healthy || found.repaired then History(0, 0, 0, "")
                     else before.(fails := before.fails + 1, next := r.now + Delay(before.fails + 1))
  {}

  /** Drift runs a cycle: success clears the device, failure is counted and puts it into backoff. */
  lemma PassRepairsDrift(r: Repairs, key: string, forced: bool, found: Finding)
    requires var h := HistoryOf(r, key); forced || (!BackingOff(h, r.now) && h.terminal == "")
    requires found.observed.health == Broken && DRIFTED <= found.observed.reason
    ensures var before, after := HistoryOf(r, key), HistoryOf(PassStep(r, key, forced, found), key);
            if CycleFailure(found.observed, found.answers).None? then after == History(0, 0, 0, "")
            else && after.cycles == before.cycles + 1
                 && after.fails == (if before.fails + 1 < 3 then 3 else before.fails + 1)
                 && after.next == r.now + Delay(after.fails)
  {}

  /** A success forgets the device: neither backoff nor terminal, and a full budget again. */
  lemma SuccessForgets(r: Repairs, key: string, other: string)
    requires other != key
    ensures var r' := SucceededStep(r, key);
            && !GivingUp(r', key) && TerminalReason(r', key) == "" && Count(r'.cycles, key) == 0
            && (GivingUp(r', other) <==> GivingUp(r, other))
            && TerminalReason(r', other) == TerminalReason(r, other)
            && Count(r'.cycles, other) == Count(r.cycles, other)
  {}
}
