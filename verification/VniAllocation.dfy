/**
 Overlay identifiers as a function of the topology: the initial assignment of a
 lab and its deconfliction against the identifiers other labs use. The hash is
 any function `h`; the probe loops end because a free salt exists.
 */
module VniAllocation {
  import opened Common
  import opened StringOrder

  type Hash = (string, string, nat) -> nat

  const VNI_MIN: nat := 4096
  const VNI_MAX: nat := 16_000_000

  /** A candidate lies in the 24-bit identifier space of section 5 of RFC 7348. */
  function Vni(h: Hash, lab: string, id: string, salt: nat): (v: nat)
    ensures VNI_MIN <= v < VNI_MAX < 0x100_0000
  {
    h(lab, id, salt) % (VNI_MAX - VNI_MIN) + VNI_MIN
  }

  // ---------- probing ----------

  predicate FreeAt(h: Hash, lab: string, id: string, bad: set<nat>, salt: nat) {
    Vni(h, lab, id, salt) !in bad
  }

  ghost predicate HasFree(h: Hash, lab: string, id: string, bad: set<nat>, from: nat) {
    exists salt: nat :: from <= salt && FreeAt(h, lab, id, bad, salt)
  }

  /** The first free salt at or after `from`. */
  ghost predicate IsFirstFree(h: Hash, lab: string, id: string, bad: set<nat>, from: nat, salt: nat) {
    && from <= salt && FreeAt(h, lab, id, bad, salt)
    && forall s: nat | from <= s < salt :: !FreeAt(h, lab, id, bad, s)
  }

  lemma FirstFreeExists(h: Hash, lab: string, id: string, bad: set<nat>, from: nat, bound: nat)
    returns (salt: nat)
    requires from <= bound && FreeAt(h, lab, id, bad, bound)
    ensures IsFirstFree(h, lab, id, bad, from, salt)
  {
    salt := from;
    while !FreeAt(h, lab, id, bad, salt)
      invariant from <= salt <= bound
      invariant forall s: nat | from <= s < salt :: !FreeAt(h, lab, id, bad, s)
      decreases bound - salt
    {
      salt := salt + 1;
    }
  }

  /** Where the probe of an identifier ends, when it ends. */
  ghost function Probe(h: Hash, lab: string, id: string, bad: set<nat>, from: nat): (salt: nat)
    ensures HasFree(h, lab, id, bad, from) ==> IsFirstFree(h, lab, id, bad, from, salt)
  {
    if exists salt: nat :: IsFirstFree(h, lab, id, bad, from, salt)
    then var salt: nat :| IsFirstFree(h, lab, id, bad, from, salt); salt
    else
      assert !HasFree(h, lab, id, bad, from) by {
        if bound: nat :| from <= bound && FreeAt(h, lab, id, bad, bound) {
          var salt := FirstFreeExists(h, lab, id, bad, from, bound);
        }
      }
      from
  }

  method ProbeFrom(h: Hash, lab: string, id: string, bad: set<nat>, from: nat) returns (v: nat)
    requires HasFree(h, lab, id, bad, from)
    ensures v == Vni(h, lab, id, Probe(h, lab, id, bad, from)) && v !in bad
  {
    ghost var end := Probe(h, lab, id, bad, from);
    var salt := from;
    while Vni(h, lab, id, salt) in bad
      invariant from <= salt <= end
      invariant forall s: nat | from <= s < salt :: !FreeAt(h, lab, id, bad, s)
      decreases end - salt
    {
      assert !FreeAt(h, lab, id, bad, salt);
      salt := salt + 1;
    }
    v := Vni(h, lab, id, salt);
    assert FreeAt(h, lab, id, bad, salt);
  }

  /** Every identifier can be placed clear of any `n` values. */
  ghost predicate Roomy(h: Hash, lab: string, ids: set<string>, from: nat, n: nat) {
    forall id, bad: set<nat> | id in ids && |bad| <= n :: HasFree(h, lab, id, bad, from)
  }

  ghost predicate Injective(m: map<string, nat>) {
    forall a, b | a in m && b in m && a != b :: m[a] != m[b]
  }

  // ---------- the initial assignment ----------

  /** What the loop over sorted identifiers has assigned. */
  datatype Assignment = Assignment(out: map<string, nat>, used: set<nat>)

  ghost function AssignOne(h: Hash, lab: string, a: Assignment, id: string): Assignment {
    var v := Vni(h, lab, id, Probe(h, lab, id, a.used, 0));
    Assignment(a.out[id := v], a.used + {v})
  }

  ghost function AssignAll(h: Hash, lab: string, ids: seq<string>): Assignment {
    if ids == [] then Assignment(map[], {})
    else AssignOne(h, lab, AssignAll(h, lab, ids[..|ids| - 1]), ids[|ids| - 1])
  }

  lemma {:induction false} AssignAllIsInjective(h: Hash, lab: string, ids: seq<string>, all: set<string>, n: nat)
    requires Roomy(h, lab, all, 0, n) && |ids| <= n + 1 && forall k | 0 <= k < |ids| :: ids[k] in all
    ensures var a := AssignAll(h, lab, ids);
            && Injective(a.out) && |a.used| <= |ids|
            && (forall id :: id in a.out <==> id in ids)
            && (forall id :: id in a.out ==> a.out[id] in a.used && VNI_MIN <= a.out[id] < VNI_MAX)
  {
    if ids != [] {
      var init, last := ids[..|ids| - 1], ids[|ids| - 1];
      assert ids == init + [last];
      AssignAllIsInjective(h, lab, init, all, n);
      var a := AssignAll(h, lab, init);
      assert HasFree(h, lab, last, a.used, 0);
      assert FreeAt(h, lab, last, a.used, Probe(h, lab, last, a.used, 0));
    }
  }

  /** The identifier went to one of the first `k` links. */
  ghost predicate GivenBefore(ids: seq<string>, out: map<string, nat>, k: nat, v: nat)
    requires k <= |ids| && forall j | 0 <= j < |ids| :: ids[j] in out
  {
    exists j | 0 <= j < k :: out[ids[j]] == v
  }

  /** Every candidate of the link before this salt went to a link before it. */
  ghost predicate FirstFor(h: Hash, lab: string, ids: seq<string>, out: map<string, nat>, k: nat, salt: nat)
    requires k < |ids| && forall j | 0 <= j < |ids| :: ids[j] in out
  {
    && out[ids[k]] == Vni(h, lab, ids[k], salt)
    && forall s: nat | s < salt :: GivenBefore(ids, out, k, Vni(h, lab, ids[k], s))
  }

  /** What was assigned to the first links stays, and is what counts as used. */
  lemma {:induction false} UsedAreAssigned(h: Hash, lab: string, ids: seq<string>, v: nat)
    requires Distinct(ids)
    ensures var a := AssignAll(h, lab, ids);
            && (forall j | 0 <= j < |ids| :: ids[j] in a.out)
            && (v in a.used <==> exists j | 0 <= j < |ids| :: a.out[ids[j]] == v)
  {
    if ids != [] {
      var init, last := ids[..|ids| - 1], ids[|ids| - 1];
      var a, b := AssignAll(h, lab, init), AssignAll(h, lab, ids);
      UsedAreAssigned(h, lab, init, v);
      assert forall j | 0 <= j < |init| :: init[j] == ids[j] && ids[j] != last && b.out[ids[j]] == a.out[init[j]];
      assert b.used == a.used + {b.out[ids[|init|]]};
      if v in a.used {
        var j :| 0 <= j < |init| && a.out[init[j]] == v;
        assert b.out[ids[j]] == v;
      }
    }
  }

  lemma LastHasFirstFree(h: Hash, lab: string, ids: seq<string>, last: string, s: nat)
    requires Distinct(ids) && last !in ids && HasFree(h, lab, last, AssignAll(h, lab, ids).used, 0)
    requires s < Probe(h, lab, last, AssignAll(h, lab, ids).used, 0)
    ensures var a := AssignAll(h, lab, ids);
            && (forall j | 0 <= j < |ids| :: ids[j] in a.out)
            && exists j | 0 <= j < |ids| :: a.out[ids[j]] == Vni(h, lab, last, s)
  {
    var v := Vni(h, lab, last, s);
    assert !FreeAt(h, lab, last, AssignAll(h, lab, ids).used, s);
    UsedAreAssigned(h, lab, ids, v);
  }

  /** One more link changes nothing about the links before it. */
  lemma FirstForStays(h: Hash, lab: string, ids: seq<string>, last: string, k: nat, salt: nat)
    requires Distinct(ids) && last !in ids && k < |ids|
    requires forall j | 0 <= j < |ids| :: ids[j] in AssignAll(h, lab, ids).out
    requires FirstFor(h, lab, ids, AssignAll(h, lab, ids).out, k, salt)
    ensures forall j | 0 <= j < |ids + [last]| :: (ids + [last])[j] in AssignAll(h, lab, ids + [last]).out
    ensures FirstFor(h, lab, ids + [last], AssignAll(h, lab, ids + [last]).out, k, salt)
  {
    var more := ids + [last];
    assert more[..|more| - 1] == ids;
    var a, b := AssignAll(h, lab, ids), AssignAll(h, lab, more);
    assert forall j | 0 <= j < |ids| :: more[j] == ids[j] && b.out[more[j]] == a.out[ids[j]];
    forall s: nat | s < salt ensures GivenBefore(more, b.out, k, Vni(h, lab, more[k], s)) {
      assert GivenBefore(ids, a.out, k, Vni(h, lab, ids[k], s));
      var j :| 0 <= j < k && a.out[ids[j]] == Vni(h, lab, ids[k], s);
      assert b.out[more[j]] == Vni(h, lab, more[k], s);
    }
  }

  lemma LastIsFirstFor(h: Hash, lab: string, ids: seq<string>, last: string)
    requires Distinct(ids) && last !in ids && HasFree(h, lab, last, AssignAll(h, lab, ids).used, 0)
    ensures forall j | 0 <= j < |ids + [last]| :: (ids + [last])[j] in AssignAll(h, lab, ids + [last]).out
    ensures FirstFor(h, lab, ids + [last], AssignAll(h, lab, ids + [last]).out, |ids|,
                     Probe(h, lab, last, AssignAll(h, lab, ids).used, 0))
  {
    var more, salt := ids + [last], Probe(h, lab, last, AssignAll(h, lab, ids).used, 0);
    assert more[..|more| - 1] == ids;
    var a, b := AssignAll(h, lab, ids), AssignAll(h, lab, more);
    UsedAreAssigned(h, lab, ids, 0);
    assert forall j | 0 <= j < |ids| :: more[j] == ids[j] && b.out[more[j]] == a.out[ids[j]];
    forall s: nat | s < salt ensures GivenBefore(more, b.out, |ids|, Vni(h, lab, more[|ids|], s)) {
      LastHasFirstFree(h, lab, ids, last, s);
      var j :| 0 <= j < |ids| && a.out[ids[j]] == Vni(h, lab, last, s);
      assert b.out[more[j]] == Vni(h, lab, last, s);
    }
  }

  /**
   A link has the first of its candidates that no link before it has: the
   unsalted one unless that is taken.
   */
  lemma {:induction false} FirstCandidateIsAssigned(h: Hash, lab: string, ids: seq<string>, all: set<string>, n: nat,
                                                    k: nat) returns (salt: nat)
    requires Roomy(h, lab, all, 0, n) && |ids| <= n + 1 && forall j | 0 <= j < |ids| :: ids[j] in all
    requires Distinct(ids) && k < |ids|
    ensures forall j | 0 <= j < |ids| :: ids[j] in AssignAll(h, lab, ids).out
    ensures FirstFor(h, lab, ids, AssignAll(h, lab, ids).out, k, salt)
  {
    var init, last := ids[..|ids| - 1], ids[|ids| - 1];
    assert ids == init + [last] && last !in init;
    if k < |init| {
      salt := FirstCandidateIsAssigned(h, lab, init, all, n, k);
      FirstForStays(h, lab, init, last, k, salt);
    } else {
      AssignAllIsInjective(h, lab, init, all, n);
      salt := Probe(h, lab, last, AssignAll(h, lab, init).used, 0);
      LastIsFirstFor(h, lab, init, last);
    }
  }

  method SortedCopy(ids: seq<string>) returns (sorted: seq<string>)
    ensures Sorted(sorted) && multiset(sorted) == multiset(ids)
  {
    var a := new string[|ids|](i requires 0 <= i < |ids| => ids[i]);
    assert a[..] == ids;
    SortStrings(a);
    sorted := a[..];
  }

  lemma SameElements(s: seq<string>, t: seq<string>)
    requires multiset(s) == multiset(t)
    ensures |s| == |t| && Ids(s) == Ids(t)
  {
    assert |s| == |multiset(s)| && |t| == |multiset(t)|;
    assert forall x :: x in s <==> x in multiset(s);
    assert forall x :: x in t <==> x in multiset(t);
  }

  function Ids(ids: seq<string>): set<string> { set x | x in ids }

  /** How many of `n` values are in the way of one of them. */
  function Others(n: nat): nat { if n == 0 then 0 else n - 1 }

  method AssignSorted(h: Hash, lab: string, sorted: seq<string>) returns (out: map<string, nat>)
    requires Roomy(h, lab, Ids(sorted), 0, Others(|sorted|))
    ensures out == AssignAll(h, lab, sorted).out
  {
    var used: set<nat> := {};
    out := map[];
    var i := 0;
    while i < |sorted|
      invariant i <= |sorted|
      invariant Assignment(out, used) == AssignAll(h, lab, sorted[..i])
    {
      AssignAllIsInjective(h, lab, sorted[..i], Ids(sorted), Others(|sorted|));
      assert sorted[..i + 1][..i] == sorted[..i];
      assert sorted[i] in Ids(sorted) && HasFree(h, lab, sorted[i], used, 0);
      var v := ProbeFrom(h, lab, sorted[i], used, 0);
      used := used + {v};
      out := out[sorted[i] := v];
      i := i + 1;
    }
    assert sorted[..|sorted|] == sorted;
  }

  /**
   Assigns every link its own identifier. The result is that of any sorted
   arrangement of the links, so it does not depend on their order.
   */
  method AssignVNIs(h: Hash, lab: string, ids: seq<string>) returns (out: map<string, nat>)
    requires Roomy(h, lab, Ids(ids), 0, Others(|ids|))
    ensures forall sorted | Sorted(sorted) && multiset(sorted) == multiset(ids) ::
      out == AssignAll(h, lab, sorted).out
    ensures Injective(out) && out.Keys == Ids(ids)
    ensures forall id :: id in out ==> VNI_MIN <= out[id] < VNI_MAX
  {
    var sorted := SortedCopy(ids);
    SameElements(sorted, ids);
    out := AssignSorted(h, lab, sorted);
    AssignAllIsInjective(h, lab, sorted, Ids(ids), Others(|ids|));
    forall other | Sorted(other) && multiset(other) == multiset(ids)
      ensures out == AssignAll(h, lab, other).out
    {
      SortedIsUnique(other, sorted);
    }
  }
}
