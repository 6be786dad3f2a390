/** The local loops of the coordination methods, which touch no server state. */
module ServerHelpers {
  import opened Common
  import opened CoordinationState
  import opened TableSteps
  import opened RecordSteps

  /** A second write of a key replaces the first; writing back what was there undoes it. */
  lemma WrittenBack<K, V>(m: map<K, V>, k: K, v: V, w: V)
    ensures m[k := v][k := w] == m[k := w]
    ensures k in m && m[k] == w ==> m[k := v][k := w] == m
    ensures k in m && m[k] == w ==> (m - {k})[k := w] == m
    ensures k !in m ==> m[k := v] - {k} == m
  {}

  lemma MembersNext(vnis: seq<VNI>, i: nat)
    requires i < |vnis|
    ensures Members(vnis[..i + 1]) == Members(vnis[..i]) + {vnis[i]}
  {
    assert vnis[..i + 1] == vnis[..i] + [vnis[i]];
  }

  /** One more VNI in a reservation. */
  lemma ReservedNext(claims: Claims, lab: Lab, g: nat, until: nat, done: set<VNI>, v: VNI)
    ensures var c := Reserved(claims, lab, g, until, done);
            var c' := Reserved(claims, lab, g, until, done + {v});
            if v in c && c[v].live then c' == c[v := c[v].(generation := g)]
            else c' == c[v := Claim(lab, g, until, false)]
  {}

  lemma NeedsWriteNext(claims: Claims, lab: Lab, g: nat, until: nat, done: set<VNI>, v: VNI)
    ensures var c := Reserved(claims, lab, g, until, done);
            NeedsWrite(claims, g, done + {v}) <==>
              NeedsWrite(claims, g, done) || !(v in c && c[v].live && c[v].generation == g)
  {}

  /** The distinct VNIs of a request in increasing order, or nothing when one is zero. */
  method SortedVNIs(vnis: seq<VNI>) returns (sorted: Option<seq<VNI>>)
    ensures sorted == if 0 in vnis then None else Some(SortedSeq(Members(vnis)))
  {
    var seen: set<VNI> := {};
    var i := 0;
    while i < |vnis|
      invariant i <= |vnis|
      invariant 0 !in vnis[..i]
      invariant seen == Members(vnis[..i])
    {
      MembersNext(vnis, i);
      if vnis[i] == 0 { return None; }
      seen := seen + {vnis[i]};
      i := i + 1;
    }
    assert vnis[..|vnis|] == vnis;
    sorted := Some(SortedSeq(seen));
  }

  // ---------- restoring claims ----------

  /** What the claims of some VNIs were, None for a VNI without a claim. */
  type Snapshot = map<VNI, Option<Claim>>

  function ClaimBefore(claims: Claims, v: VNI): Option<Claim> {
    if v in claims then Some(claims[v]) else None
  }

  method TakeSnapshot(claims: Claims, vnis: seq<VNI>) returns (before: Snapshot)
    ensures before == map v | v in vnis :: ClaimBefore(claims, v)
  {
    before := map[];
    var i := 0;
    while i < |vnis|
      invariant i <= |vnis|
      invariant before == map v | v in vnis[..i] :: ClaimBefore(claims, v)
    {
      before := before[vnis[i] := ClaimBefore(claims, vnis[i])];
      i := i + 1;
    }
    assert vnis[..|vnis|] == vnis;
  }

  /** The claims with the VNIs of a snapshot put back, except those kept. */
  function Restored(claims: Claims, before: Snapshot, kept: set<VNI>): Claims {
    map v | v in claims.Keys + before.Keys &&
            (if v in before && v !in kept then before[v].Some? else v in claims) ::
      if v in before && v !in kept then before[v].value else claims[v]
  }

  /** Putting a snapshot back undoes every change to its VNIs but the kept ones. */
  lemma RestoredIsStamped(base: Claims, claims: Claims, lab: Lab, g: nat, vnis: seq<VNI>, kept: set<VNI>)
    requires forall v :: v !in vnis ==> ClaimBefore(claims, v) == ClaimBefore(base, v)
    requires forall v :: v in kept ==> v in vnis && v in claims && claims[v] == Claim(lab, g, 0, true)
    ensures Restored(claims, map v | v in vnis :: ClaimBefore(base, v), kept) == Stamped(base, lab, g, kept)
  {
    var r := Restored(claims, map v | v in vnis :: ClaimBefore(base, v), kept);
    var want := Stamped(base, lab, g, kept);
    assert forall v :: ClaimBefore(r, v) == ClaimBefore(want, v);
    SameClaims(r, want);
  }

  lemma RestoredIsBefore(base: Claims, claims: Claims, vnis: seq<VNI>)
    requires forall v :: v !in vnis ==> ClaimBefore(claims, v) == ClaimBefore(base, v)
    ensures Restored(claims, map v | v in vnis :: ClaimBefore(base, v), {}) == base
  {
    SameClaims(Restored(claims, map v | v in vnis :: ClaimBefore(base, v), {}), base);
  }

  lemma SameClaims(a: Claims, b: Claims)
    requires forall v :: ClaimBefore(a, v) == ClaimBefore(b, v)
    ensures a == b
  {
    forall v ensures v in a <==> v in b {
      assert ClaimBefore(a, v) == ClaimBefore(b, v);
    }
    forall v | v in a ensures a[v] == b[v] {
      assert ClaimBefore(a, v) == ClaimBefore(b, v);
    }
  }

  /** Some of the VNIs is only reserved. */
  predicate PendingAmong(claims: Claims, vnis: set<VNI>) {
    exists v :: v in vnis && v in claims && !claims[v].live
  }

  /** One more VNI in a promotion. */
  lemma PromotedNext(claims: Claims, done: set<VNI>, v: VNI)
    ensures var c := Promoted(claims, done);
            && (v in c <==> v in claims)
            && (v in c ==>
                  && c[v].lab == claims[v].lab && c[v].generation == claims[v].generation
                  && (Promoted(claims, done + {v}) ==
                      if c[v].live then c else c[v := c[v].(live := true, until := 0)])
                  && (PendingAmong(claims, done + {v}) <==> PendingAmong(claims, done) || !c[v].live))
  {}

  lemma PromotionChanges(claims: Claims, vnis: set<VNI>)
    ensures PendingAmong(claims, vnis) <==> Promoted(claims, vnis) != claims
  {
    if PendingAmong(claims, vnis) {
      var v :| v in vnis && v in claims && !claims[v].live;
      assert Promoted(claims, vnis)[v].live;
    } else {
      assert Promoted(claims, vnis) == claims;
    }
  }

  lemma StampedNext(claims: Claims, lab: Lab, g: nat, done: set<VNI>, v: VNI)
    ensures Stamped(claims, lab, g, done + {v}) == Stamped(claims, lab, g, done)[v := Claim(lab, g, 0, true)]
  {}

  /** The marks after taking `loaded` over, none of them lowered. */
  function Raised(marks: map<Lab, nat>, loaded: map<Lab, nat>): map<Lab, nat> {
    map x | x in marks.Keys + loaded.Keys && (x in marks || loaded[x] > 0) ::
      if x in loaded && (x in marks ==> loaded[x] > marks[x]) then loaded[x] else marks[x]
  }

  // ---------- lineage ----------

  /** Putting the transaction and the generation record back undoes those writes of a commit. */
  lemma CommitPutBack(r: Records, lab: Lab, tx: Transaction, inventory: Option<Inventory>,
                      tx': Transaction, state: GenerationState)
    ensures var m := CommitRecords(r, lab, tx, inventory);
            && m.transactions[lab := tx'] == r.transactions[lab := tx']
            && m.generations[lab := state] == r.generations[lab := state]
  {}

  method AppendGenerationLineage(existing: seq<Generation>, previous: Generation, current: Generation)
    returns (ancestors: seq<Generation>)
    ensures ancestors == AppendLineage(existing, previous, current)
  {
    var values := existing + [previous, current];
    var seen: set<Generation> := {};
    ancestors := [];
    var i := 0;
    while i < |values|
      invariant i <= |values|
      invariant ancestors == FirstOccurrences(values[..i])
      invariant forall x :: x in seen <==> x in ancestors
    {
      var generation := values[i];
      assert values[..i + 1][..i] == values[..i];
      if generation != "" && generation !in seen {
        seen := seen + {generation};
        ancestors := ancestors + [generation];
      }
      i := i + 1;
    }
    assert values[..|values|] == values;
  }

  /** The lineage of a committed inventory: touched overlays move to the new generation. */
  method RecordLineage(tx: Transaction, before: map<VNI, Generation>, vnis: seq<VNI>)
    returns (lineage: map<VNI, Generation>)
    ensures lineage == CommitLineage(tx, before, vnis)
  {
    lineage := map[];
    var i := 0;
    while i < |vnis|
      invariant i <= |vnis|
      invariant lineage == CommitLineage(tx, before, vnis[..i])
    {
      var vni, generation := vnis[i], tx.generation;
      if !(tx.touchedKnown && vni in tx.touched) && vni in before && before[vni] != "" {
        generation := before[vni];
      }
      lineage := lineage[vni := generation];
      i := i + 1;
    }
    assert vnis[..|vnis|] == vnis;
  }

  method AppendTouchedVNIs(existing: seq<VNI>, added: seq<VNI>) returns (touched: seq<VNI>)
    ensures touched == MergeTouched(existing, added)
  {
    var values := existing + added;
    var seen: set<VNI> := {};
    var i := 0;
    while i < |values|
      invariant i <= |values|
      invariant seen == Members(values[..i]) - {0}
    {
      MembersNext(values, i);
      if values[i] != 0 && values[i] !in seen {
        seen := seen + {values[i]};
      }
      i := i + 1;
    }
    assert values[..|values|] == values;
    touched := SortedSeq(seen);
  }
}
