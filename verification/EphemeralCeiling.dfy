/**
 The ceiling of a disposable lab: no sequence of redeploys, heartbeats, failed
 saves and restarts moves its deadline past its creation plus eight hours.
 */
module EphemeralCeiling {
  import opened Common
  import opened EphemeralSteps

  // ---------- what every state satisfies ----------

  /** A lifetime in memory always has a ceiling. */
  predicate Capped(l: Lifetime, now: nat) {
    GoodRecord(l, now) && l.hard != 0
  }

  ghost predicate AllGood(s: State) {
    && s.now > 0
    && (forall lab :: lab in s.mem ==> Capped(s.mem[lab], s.now))
    && (forall lab :: lab in s.disk ==> GoodRecord(s.disk[lab], s.now))
  }

  /** A lifetime held in memory and journalled is the same, up to migration. */
  predicate Agrees(s: State, lab: Lab) {
    lab in s.mem && lab in s.disk && s.disk[lab].created != 0 ==>
      s.mem[lab] == Migrated(s.disk[lab], s.now)
  }

  lemma StepIsGood(s: State, e: Event)
    requires AllGood(s)
    ensures AllGood(Step(s, e))
  {}

  lemma {:induction false} RunIsGood(ss: seq<State>, es: seq<Event>, n: nat)
    requires IsRun(ss, es) && n < |ss|
    ensures AllGood(ss[n])
  {
    if n > 0 {
      assert StepAt(ss, es, n - 1);
      RunIsGood(ss, es, n - 1);
      StepIsGood(ss[n - 1], es[n - 1]);
    }
  }

  lemma {:induction false} RunAgrees(ss: seq<State>, es: seq<Event>, n: nat, lab: Lab)
    requires IsRun(ss, es) && Durable(es) && n < |ss|
    ensures AllGood(ss[n]) && Agrees(ss[n], lab)
  {
    RunIsGood(ss, es, n);
    if n > 0 {
      assert StepAt(ss, es, n - 1);
      RunAgrees(ss, es, n - 1, lab);
    }
  }

  // ---------- the ceiling ----------

  /** The lab has a lifetime record throughout, journalled at every restart. */
  ghost predicate Recorded(ss: seq<State>, es: seq<Event>, i: nat, k: nat, lab: Lab)
    requires |ss| == |es| + 1 && i <= k < |ss|
  {
    && (forall m | i <= m <= k :: lab in ss[m].mem)
    && (forall m | i <= m < k :: es[m].Restart? ==> lab in ss[m].disk && ss[m].disk[lab].created != 0)
  }

  /** Creation and ceiling are the same. */
  predicate SameCeiling(l: Lifetime, l': Lifetime) {
    l'.created == l.created && l'.hard == l.hard
  }

  lemma StepKeepsCeiling(s: State, e: Event, lab: Lab)
    requires AllGood(s) && Agrees(s, lab) && Readable(e)
    requires lab in s.mem && s.mem[lab].created != 0 && lab in Step(s, e).mem
    requires e.Restart? ==> lab in s.disk && s.disk[lab].created != 0
    ensures SameCeiling(s.mem[lab], Step(s, e).mem[lab])
    ensures s.now <= Step(s, e).now
    ensures Expired(s.mem[lab], s.now) && !(e.Note? && e.lab == lab) ==>
              Step(s, e).mem[lab] == s.mem[lab]
  {}

  lemma {:induction false} CeilingIsKept(ss: seq<State>, es: seq<Event>, i: nat, k: nat, lab: Lab)
    requires IsRun(ss, es) && Durable(es) && i <= k < |ss|
    requires Recorded(ss, es, i, k, lab) && ss[i].mem[lab].created != 0
    ensures SameCeiling(ss[i].mem[lab], ss[k].mem[lab]) && ss[i].now <= ss[k].now
    decreases k
  {
    if i < k {
      CeilingIsKept(ss, es, i, k - 1, lab);
      assert StepAt(ss, es, k - 1);
      RunAgrees(ss, es, k - 1, lab);
      StepKeepsCeiling(ss[k - 1], es[k - 1], lab);
    }
  }

  /**
   While a lifetime record exists, its deadline never passes the creation it
   started with by more than eight hours.
   */
  lemma DeadlineNeverPassesCeiling(ss: seq<State>, es: seq<Event>, i: nat, k: nat, lab: Lab)
    requires IsRun(ss, es) && Durable(es) && i <= k < |ss|
    requires Recorded(ss, es, i, k, lab) && ss[i].mem[lab].created != 0
    ensures Deadline(ss[k].mem[lab]) <= ss[i].mem[lab].created + MAX_LIFETIME
  {
    CeilingIsKept(ss, es, i, k, lab);
    RunIsGood(ss, es, i);
  }

  /** A lifetime past its ceiling stays expired, whatever is done to the record. */
  lemma PastCeilingStaysExpired(ss: seq<State>, es: seq<Event>, i: nat, k: nat, lab: Lab)
    requires IsRun(ss, es) && Durable(es) && i <= k < |ss|
    requires Recorded(ss, es, i, k, lab) && ss[i].mem[lab].created != 0
    requires ss[i].mem[lab].hard <= ss[i].now
    ensures Expired(ss[k].mem[lab], ss[k].now)
  {
    CeilingIsKept(ss, es, i, k, lab);
    RunIsGood(ss, es, k);
  }

  /** An expired lifetime stays as it is until a redeploy; no heartbeat revives it. */
  lemma {:induction false} HeartbeatsNeverRevive(ss: seq<State>, es: seq<Event>, i: nat, k: nat, lab: Lab)
    requires IsRun(ss, es) && Durable(es) && i <= k < |ss|
    requires Recorded(ss, es, i, k, lab) && ss[i].mem[lab].created != 0
    requires Expired(ss[i].mem[lab], ss[i].now)
    requires forall m | i <= m < k :: !(es[m].Note? && es[m].lab == lab)
    ensures ss[k].mem[lab] == ss[i].mem[lab] && Expired(ss[k].mem[lab], ss[k].now)
    decreases k
  {
    if i < k {
      HeartbeatsNeverRevive(ss, es, i, k - 1, lab);
      assert StepAt(ss, es, k - 1);
      RunAgrees(ss, es, k - 1, lab);
      StepKeepsCeiling(ss[k - 1], es[k - 1], lab);
    }
  }

  // ---------- heartbeats keep a lab alive ----------

  /** The step is not about this lab, and the process goes on. */
  predicate Elsewhere(e: Event, lab: Lab) {
    match e
    case Tick(_) => true
    case OtherSave(_) => true
    case Restart(_, _, _, _) => false
    case _ => e.lab != lab
  }

  lemma {:induction false} UntouchedElsewhere(ss: seq<State>, es: seq<Event>, i: nat, k: nat, lab: Lab)
    requires IsRun(ss, es) && i <= k < |ss| && lab in ss[i].mem
    requires forall m | i <= m < k :: Elsewhere(es[m], lab)
    ensures lab in ss[k].mem && ss[k].mem[lab] == ss[i].mem[lab]
    decreases k
  {
    if i < k {
      UntouchedElsewhere(ss, es, i, k - 1, lab);
      assert StepAt(ss, es, k - 1);
    }
  }

  /**
   After an accepted heartbeat the lab lives until the time it asked for or its
   ceiling, whichever is first, and not longer, if nothing else is done to it.
   */
  lemma AliveAfterHeartbeat(ss: seq<State>, es: seq<Event>, i: nat, k: nat, lab: Lab)
    requires IsRun(ss, es) && i < k < |ss| && es[i].Renew? && es[i].lab == lab && es[i].ok && es[i].seconds > 0
    requires lab != "" && lab in ss[i].mem && ss[i].mem[lab].owner == es[i].owner
    requires ss[i].now < ss[i].mem[lab].expires && ss[i].now < ss[i].mem[lab].hard
    requires forall m | i < m < k :: Elsewhere(es[m], lab)
    ensures lab in ss[k].mem && ss[k].mem[lab].hard == ss[i].mem[lab].hard
    ensures Expired(ss[k].mem[lab], ss[k].now) <==>
              || ss[i].mem[lab].hard <= ss[k].now
              || ss[i].now + ClampTTL(es[i].seconds) * SECOND <= ss[k].now
  {
    assert StepAt(ss, es, i);
    UntouchedElsewhere(ss, es, i + 1, k, lab);
  }

  /** A lifetime record appears only by a deployment or a restart. */
  lemma OnlyDeploymentsCreate(s: State, e: Event, lab: Lab)
    requires lab !in s.mem && lab in Step(s, e).mem
    ensures (e.Note? && e.lab == lab && e.ok) || e.Restart?
  {}

  /**
   The end of a reclamation drops the record of one lab, so that a heartbeat for
   it is refused; after a restart the record is back exactly when its removal
   was not saved and can be read, or the topology still marks the lab.
   */
  lemma DroppedReturnsExactlyWhen(s: State, lab: Lab, ok: bool, readable: bool, marked: map<Lab, int>,
                                  ok1: bool, ok2: bool, owner: string)
    requires lab in s.mem
    ensures var s' := DropStep(s, lab, ok);
            && !CanRenew(s', lab, owner) && s'.mem == s.mem - {lab}
            && (lab in RestartStep(s', readable, marked, ok1, ok2).mem <==>
                  (readable && !ok && lab in s.disk) || lab in marked)
  {}

  /**
   A release by the owner, a durable redeploy and a destroy end the lifetime of
   their lab, in memory and in the journal, when they are saved, and change
   nothing when they are not; other labs keep theirs.
   */
  lemma SavedEndIsFinal(s: State, lab: Lab, ok: bool, other: Lab)
    requires lab != "" && lab in s.mem && other != lab
    ensures forall s' | s' in {ReleaseStep(s, lab, s.mem[lab].owner, ok), ForgetStep(s, lab, ok),
                               DestroyStep(s, lab, ok)} ::
              && (ok ==> lab !in s'.mem && s'.disk == s'.mem)
              && (!ok ==> s' == s)
              && (other in s'.mem <==> other in s.mem) && (other in s.mem ==> s'.mem[other] == s.mem[other])
  {}

  // ---------- where the ceiling does move ----------

  /**
   A redeploy keeps creation and ceiling of a lifetime exactly when its
   creation is known: a record migrated without one starts over.
   */
  lemma RedeployKeepsCeilingExactlyWhen(s: State, lab: Lab, owner: string, seconds: int)
    requires AllGood(s) && lab in s.mem && lab != ""
    ensures var l := NoteStep(s, lab, owner, seconds, true).mem[lab];
            (SameCeiling(s.mem[lab], l) <==> s.mem[lab].created != 0)
            && Deadline(l) <= l.created + MAX_LIFETIME
  {}

  /**
   A restart keeps the ceiling of a lifetime exactly when its record can be
   read back: otherwise the lab is durable, or it starts over with a grace.
   */
  lemma RestartKeepsCeilingExactlyWhen(s: State, lab: Lab, readable: bool, marked: map<Lab, int>,
                                       ok1: bool, ok2: bool)
    requires AllGood(s) && Agrees(s, lab) && lab in s.mem && 0 < s.mem[lab].created < s.now
    requires lab in s.disk ==> s.disk[lab].created != 0
    ensures var mem := RestartStep(s, readable, marked, ok1, ok2).mem;
            && (lab in mem && SameCeiling(s.mem[lab], mem[lab]) <==> readable && lab in s.disk)
            && (!(readable && lab in s.disk) && lab in mem ==>
                  mem[lab].created == s.now && Deadline(mem[lab]) <= s.now + MAX_TTL_SECONDS * SECOND)
  {}

  // ---------- runs in which it moves ----------

  const HOUR: nat := 3600 * SECOND

  /** A record from before ceilings existed, and without a creation. */
  const OLD_RECORD := Lifetime("", 900, 0, 1, 0, false)

  lemma RunOf(s0: State, es: seq<Event>) returns (ss: seq<State>)
    requires Init(s0)
    ensures IsRun(ss, es) && ss[0] == s0
    decreases |es|
  {
    if es == [] {
      ss := [s0];
    } else {
      var init, last := es[..|es| - 1], es[|es| - 1];
      var before := RunOf(s0, init);
      ss := before + [Step(before[|init|], last)];
      assert es == init + [last];
      forall i | 0 <= i < |es| ensures StepAt(ss, es, i) {
        if i < |init| { assert StepAt(before, init, i); }
      }
    }
  }

  /**
   A redeploy an hour after an old record was read moves its ceiling by that
   hour, past the eight hours the record was given when it was read.
   */
  lemma RedeployMovesOldCeiling(lab: Lab) returns (ss: seq<State>, es: seq<Event>)
    requires lab != ""
    ensures IsRun(ss, es) && Durable(es) && |es| == 3
    ensures forall n | 1 <= n <= 3 :: lab in ss[n].mem
    ensures es[2] == Note(lab, "", 0, true)
    ensures ss[3].mem[lab].hard == ss[1].mem[lab].hard + HOUR
  {
    var s0 := State(1, map[], map[lab := OLD_RECORD]);
    es := [Restart(true, map[], true, true), Tick(HOUR), Note(lab, "", 0, true)];
    ss := RunOf(s0, es);
    assert StepAt(ss, es, 0) && StepAt(ss, es, 1) && StepAt(ss, es, 2);
  }

  /**
   A restart whose record was never saved starts the lifetime of a disposable
   lab over: its ceiling moves by the hour in between.
   */
  lemma UnsavedRestoreMovesCeiling(lab: Lab) returns (ss: seq<State>, es: seq<Event>)
    requires lab != ""
    ensures IsRun(ss, es) && Durable(es) && |es| == 3
    ensures lab in ss[1].mem && lab in ss[3].mem && ss[1].mem[lab].created != 0
    ensures es[2].Restart? && lab !in ss[2].disk
    ensures ss[3].mem[lab].hard == ss[1].mem[lab].hard + HOUR
  {
    var s0 := State(1, map[], map[]);
    var again := Restart(true, map[lab := 0], true, false);
    es := [again, Tick(HOUR), again];
    ss := RunOf(s0, es);
    assert StepAt(ss, es, 0) && StepAt(ss, es, 1) && StepAt(ss, es, 2);
  }
}
