/** One repair cycle of a device whose network semantics drifted, and what its failure says. */
module DriftRepair {
  import opened Common
  import opened Redaction

  datatype Health = Healthy | Broken | Unknown

  function HealthText(h: Health): string {
    match h
    case Healthy => "healthy"
    case Broken => "broken"
    case Unknown => "unknown"
  }

  datatype Observation = Observation(health: Health, reason: string)

  const DRIFTED := "network semantics drifted:"

  predicate IsSemanticOnlyDrift(reason: string) { DRIFTED <= reason }

  /** The drift is one this node owns: a missing address, route, bridge, tag or VLAN. */
  predicate LocallyRepairable(reason: string) {
    || Index(reason, "is missing expected") >= 0
    || Index(reason, "has no usable OVS bridge") >= 0
    || Index(reason, "is not tagged") >= 0
    || Index(reason, "is missing VLAN") >= 0
  }

  /** Errors of the deploy engine carry a text. */
  type ErrorText = s: string | s != "" witness "error"

  /** What the engine and later observations answer to the steps of a cycle; None is success. */
  datatype Answers = Answers(
    bindings: Option<ErrorText>, reconfigured: Option<ErrorText>, confirmed: Observation,
    after: Observation, rewired: Option<ErrorText>, last: Observation)

  function DriftReason(after: Observation, observed: Observation): string {
    if after.reason != "" then after.reason
    else if observed.reason != "" then observed.reason
    else HealthText(after.health)
  }

  function ConfirmFailure(after: Observation): Option<string> {
    if after.health == Healthy then None
    else Some(if after.reason != "" then after.reason else HealthText(after.health))
  }

  /** The failure of a cycle, or None when the device was seen healthy in the end. */
  function CycleFailure(observed: Observation, a: Answers): Option<string> {
    if IsSemanticOnlyDrift(observed.reason) && !LocallyRepairable(observed.reason)
    then Some(DriftReason(observed, observed))
    else if a.bindings.Some? then Some(a.bindings.value)
    else if a.reconfigured.Some? then Some(a.reconfigured.value)
    else if ConfirmFailure(a.confirmed).Some? then ConfirmFailure(a.confirmed)
    else if a.after.health == Healthy then None
    else if !IsSemanticOnlyDrift(a.after.reason) || !LocallyRepairable(a.after.reason)
    then Some(DriftReason(a.after, observed))
    else if a.rewired.Some? then Some(a.rewired.value)
    else if a.last.health == Healthy then None
    else Some(DriftReason(a.last, observed))
  }

  lemma HealthHasText(h: Health)
    ensures HealthText(h) != ""
  {
    assert |HealthText(Healthy)| == 7 && |HealthText(Broken)| == 6 && |HealthText(Unknown)| == 7;
  }

  lemma DriftIsExplained(after: Observation, observed: Observation)
    ensures DriftReason(after, observed) != ""
  {
    HealthHasText(after.health);
  }

  lemma ConfirmIsExplained(after: Observation)
    ensures ConfirmFailure(after).Some? ==> ConfirmFailure(after).value != ""
  {
    HealthHasText(after.health);
  }

  /** A failed cycle always says why. */
  lemma FailureIsExplained(observed: Observation, a: Answers)
    ensures CycleFailure(observed, a).Some? ==> CycleFailure(observed, a).value != ""
  {
    DriftIsExplained(observed, observed);
    DriftIsExplained(a.after, observed);
    DriftIsExplained(a.last, observed);
    ConfirmIsExplained(a.confirmed);
  }

  ghost predicate Mentions(reason: string, text: string) { exists i: nat :: OccursAt(reason, text, i) }

  lemma IndexMeansMention(reason: string, text: string)
    ensures Index(reason, text) >= 0 <==> Mentions(reason, text)
  {
    IndexFromMeans(reason, text, 0);
  }

  /** Which drift the node repairs itself. */
  lemma RepairableExactlyWhen(reason: string)
    ensures LocallyRepairable(reason) <==>
      || Mentions(reason, "is missing expected") || Mentions(reason, "has no usable OVS bridge")
      || Mentions(reason, "is not tagged") || Mentions(reason, "is missing VLAN")
  {
    IndexMeansMention(reason, "is missing expected");
    IndexMeansMention(reason, "has no usable OVS bridge");
    IndexMeansMention(reason, "is not tagged");
    IndexMeansMention(reason, "is missing VLAN");
  }

  /**
   A cycle for drift succeeds exactly when the drift is the node's own to repair,
   both repair steps succeed and the device is confirmed, and then it is healthy
   or a rewiring of drift that is left makes it so.
   */
  lemma CycleSucceedsExactlyWhen(observed: Observation, a: Answers)
    requires DRIFTED <= observed.reason
    ensures CycleFailure(observed, a).None? <==>
      && LocallyRepairable(observed.reason)
      && a.bindings.None? && a.reconfigured.None? && a.confirmed.health == Healthy
      && (|| a.after.health == Healthy
          || (&& DRIFTED <= a.after.reason && LocallyRepairable(a.after.reason)
              && a.rewired.None? && a.last.health == Healthy))
  {}

  /** A cycle succeeds only when a later observation saw the device healthy. */
  lemma SuccessWasObserved(observed: Observation, a: Answers)
    requires CycleFailure(observed, a).None?
    ensures a.confirmed.health == Healthy && (a.after.health == Healthy || a.last.health == Healthy)
  {}
}
