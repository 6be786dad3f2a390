/**
 Deconfliction: exactly the identifiers of a lab that another named lab uses
 are moved, the result is injective and clear of every other lab, and it does
 not depend on what the lab itself already has in use.
 */
module Deconfliction {
  import opened Common
  import opened StringOrder
  import opened VniAllocation

  type Owners = map<nat, string>
  type Vnis = map<string, nat>

  /** Identifiers in use by anyone but the lab. */
  function Occupied(inUse: Owners, lab: string): set<nat> {
    set v | v in inUse && inUse[v] != lab
  }

  /** Identifiers another lab owns by name. */
  function Named(inUse: Owners, lab: string): set<nat> {
    set v | v in inUse && inUse[v] != lab && inUse[v] != ""
  }

  function Values(vnis: Vnis): set<nat> {
    set id | id in vnis :: vnis[id]
  }

  datatype Progress = Progress(vnis: Vnis, taken: set<nat>, moved: nat)

  function Start(lab: string, vnis: Vnis, inUse: Owners): Progress {
    Progress(vnis, Occupied(inUse, lab) + Values(vnis), 0)
  }

  /** The new identifier of a link whose identifier `v` clashes. */
  ghost function Moved(h: Hash, lab: string, named: set<nat>, taken: set<nat>, id: string, v: nat): nat {
    Vni(h, lab, id, Probe(h, lab, id, (taken - {v}) + named, 1))
  }

  ghost function MoveOne(h: Hash, lab: string, named: set<nat>, p: Progress, id: string): Progress
    requires id in p.vnis
  {
    var v := p.vnis[id];
    if v !in named then p
    else
      var cand := Moved(h, lab, named, p.taken, id, v);
      Progress(p.vnis[id := cand], (p.taken - {v}) + {cand}, p.moved + 1)
  }

  /** The links of a list, one after the other. */
  ghost function MoveAll(h: Hash, lab: string, named: set<nat>, p: Progress, ids: seq<string>): (r: Progress)
    requires forall k | 0 <= k < |ids| :: ids[k] in p.vnis
    ensures r.vnis.Keys == p.vnis.Keys
  {
    if ids == [] then p
    else MoveOne(h, lab, named, MoveAll(h, lab, named, p, ids[..|ids| - 1]), ids[|ids| - 1])
  }

  lemma MoveAllNext(h: Hash, lab: string, named: set<nat>, p: Progress, ids: seq<string>, i: nat)
    requires i < |ids| && forall k | 0 <= k < |ids| :: ids[k] in p.vnis
    ensures MoveAll(h, lab, named, p, ids[..i + 1])
         == MoveOne(h, lab, named, MoveAll(h, lab, named, p, ids[..i]), ids[i])
  {
    assert ids[..i + 1][..i] == ids[..i];
  }

  // ---------- what the loop keeps ----------

  /** The links among `ids` whose identifier another lab owns. */
  function Clashing(named: set<nat>, vnis: Vnis, ids: seq<string>): set<string> {
    set id | id in ids && id in vnis && vnis[id] in named
  }

  /** Where a link is once the links `ids` have been looked at. */
  ghost predicate PlacedAt(named: set<nat>, start: Progress, p: Progress, ids: seq<string>, id: string)
    requires id in p.vnis && id in start.vnis
  {
    && p.vnis[id] in p.taken
    && if id in ids && start.vnis[id] in named
       then p.vnis[id] !in named && p.vnis[id] !in start.taken && VNI_MIN <= p.vnis[id] < VNI_MAX
       else p.vnis[id] == start.vnis[id]
  }

  ghost predicate Placed(named: set<nat>, start: Progress, p: Progress, ids: seq<string>) {
    && p.vnis.Keys == start.vnis.Keys
    && Injective(p.vnis)
    && (forall id :: id in p.vnis ==> PlacedAt(named, start, p, ids, id))
    && start.taken <= p.taken + named
    && p.moved == |Clashing(named, start.vnis, ids)|
    && |p.taken + named| <= |start.taken + named| + p.moved
  }

  lemma ClashingNext(named: set<nat>, vnis: Vnis, ids: seq<string>, id: string)
    requires id in vnis && id !in ids
    ensures Clashing(named, vnis, ids + [id]) ==
            Clashing(named, vnis, ids) + (if vnis[id] in named then {id} else {})
  {}

  lemma KeepKeeps(named: set<nat>, start: Progress, p: Progress, ids: seq<string>, id: string)
    requires Placed(named, start, p, ids) && id in p.vnis && id !in ids && p.vnis[id] !in named
    ensures Placed(named, start, p, ids + [id])
  {
    assert PlacedAt(named, start, p, ids, id);
    ClashingNext(named, start.vnis, ids, id);
    forall x | x in p.vnis ensures PlacedAt(named, start, p, ids + [id], x) {
      assert PlacedAt(named, start, p, ids, x);
    }
  }

  lemma MoveKeeps(h: Hash, lab: string, named: set<nat>, start: Progress, p: Progress, ids: seq<string>,
                  id: string)
    requires Placed(named, start, p, ids) && id in p.vnis && id !in ids && p.vnis[id] in named
    requires HasFree(h, lab, id, (p.taken - {p.vnis[id]}) + named, 1)
    ensures Placed(named, start, MoveOne(h, lab, named, p, id), ids + [id])
  {
    var v, p' := p.vnis[id], MoveOne(h, lab, named, p, id);
    var bad, cand := (p.taken - {v}) + named, p'.vnis[id];
    assert FreeAt(h, lab, id, bad, Probe(h, lab, id, bad, 1)) && cand !in bad;
    assert bad == p.taken + named && p'.taken + named == bad + {cand};
    assert PlacedAt(named, start, p, ids, id);
    ClashingNext(named, start.vnis, ids, id);
    forall x | x in p'.vnis ensures PlacedAt(named, start, p', ids + [id], x) {
      assert PlacedAt(named, start, p, ids, x);
    }
  }

  lemma {:induction false} MoveAllPlaces(h: Hash, lab: string, named: set<nat>, start: Progress, ids: seq<string>,
                                         n: nat)
    requires Placed(named, start, start, []) && Distinct(ids)
    requires forall k | 0 <= k < |ids| :: ids[k] in start.vnis
    requires Roomy(h, lab, start.vnis.Keys, 1, n)
    requires |start.taken + named| + |ids| <= n + 1
    ensures Placed(named, start, MoveAll(h, lab, named, start, ids), ids)
    ensures MoveAll(h, lab, named, start, ids).moved <= |ids|
  {
    if ids != [] {
      var init, last := ids[..|ids| - 1], ids[|ids| - 1];
      assert ids == init + [last];
      MoveAllPlaces(h, lab, named, start, init, n);
      var p := MoveAll(h, lab, named, start, init);
      if p.vnis[last] in named {
        var bad := (p.taken - {p.vnis[last]}) + named;
        assert bad == p.taken + named;
        assert HasFree(h, lab, last, bad, 1);
        MoveKeeps(h, lab, named, start, p, init, last);
      } else {
        KeepKeeps(named, start, p, init, last);
      }
    }
  }

  lemma StartIsPlaced(lab: string, vnis: Vnis, inUse: Owners)
    requires Injective(vnis)
    ensures Placed(Named(inUse, lab), Start(lab, vnis, inUse), Start(lab, vnis, inUse), [])
    ensures Start(lab, vnis, inUse).taken + Named(inUse, lab) == Start(lab, vnis, inUse).taken
  {}

  // ---------- safe and minimal ----------

  /** Every link once, in sorted order. */
  ghost predicate Listing(ids: seq<string>, vnis: Vnis) {
    Sorted(ids) && Distinct(ids) && Ids(ids) == vnis.Keys
  }

  ghost function Deconflicted(h: Hash, lab: string, vnis: Vnis, inUse: Owners, ids: seq<string>): Progress
    requires Listing(ids, vnis)
  {
    assert forall k | 0 <= k < |ids| :: ids[k] in Ids(ids);
    MoveAll(h, lab, Named(inUse, lab), Start(lab, vnis, inUse), ids)
  }

  /** Enough free salts for every link that may have to move. */
  ghost predicate RoomToMove(h: Hash, lab: string, vnis: Vnis, inUse: Owners) {
    Roomy(h, lab, vnis.Keys, 1, |Start(lab, vnis, inUse).taken| + Others(|vnis|))
  }

  lemma {:induction false} DistinctLength(ids: seq<string>)
    requires Distinct(ids)
    ensures |Ids(ids)| == |ids| && multiset(ids) == multiset(Ids(ids))
  {
    if ids != [] {
      var init, last := ids[..|ids| - 1], ids[|ids| - 1];
      assert ids == init + [last];
      DistinctLength(init);
      assert Ids(ids) == Ids(init) + {last};
    }
  }

  lemma DeconflictPlaces(h: Hash, lab: string, vnis: Vnis, inUse: Owners, ids: seq<string>)
    requires Injective(vnis) && Listing(ids, vnis) && RoomToMove(h, lab, vnis, inUse)
    ensures Placed(Named(inUse, lab), Start(lab, vnis, inUse), Deconflicted(h, lab, vnis, inUse, ids), ids)
  {
    var start := Start(lab, vnis, inUse);
    assert forall k | 0 <= k < |ids| :: ids[k] in Ids(ids);
    StartIsPlaced(lab, vnis, inUse);
    DistinctLength(ids);
    MoveAllPlaces(h, lab, Named(inUse, lab), start, ids, |start.taken| + Others(|vnis|));
  }

  /** The link is clear of other labs, and has moved exactly when it clashed. */
  ghost predicate WellPlaced(named: set<nat>, taken: set<nat>, v: nat, v': nat) {
    && v' !in named
    && (v' != v <==> v in named)
    && (v' != v ==> v' !in taken && VNI_MIN <= v' < VNI_MAX)
  }

  lemma PlacedWell(named: set<nat>, start: Progress, r: Progress, ids: seq<string>, id: string)
    requires Placed(named, start, r, ids) && id in start.vnis && id in ids
    ensures id in r.vnis && WellPlaced(named, start.taken, start.vnis[id], r.vnis[id])
  {
    assert PlacedAt(named, start, r, ids, id);
  }

  /** Another lab owns the identifier, by name. */
  predicate OwnedByOther(inUse: Owners, lab: string, v: nat) {
    v in inUse && inUse[v] != lab && inUse[v] != ""
  }

  /** The result is clear of other labs and injective; exactly the clashing links moved. */
  lemma DeconflictIsSafeAndMinimal(h: Hash, lab: string, vnis: Vnis, inUse: Owners, ids: seq<string>)
    requires Injective(vnis) && Listing(ids, vnis) && RoomToMove(h, lab, vnis, inUse)
    ensures var r := Deconflicted(h, lab, vnis, inUse, ids);
            && r.vnis.Keys == vnis.Keys && Injective(r.vnis)
            && r.moved == |set id | id in vnis && OwnedByOther(inUse, lab, vnis[id])|
            && forall id :: id in vnis ==>
                 if OwnedByOther(inUse, lab, vnis[id])
                 then && VNI_MIN <= r.vnis[id] < VNI_MAX
                      && (r.vnis[id] in inUse ==> inUse[r.vnis[id]] == lab)
                      && forall other :: other in vnis ==> vnis[other] != r.vnis[id]
                 else r.vnis[id] == vnis[id]
  {
    var named, start := Named(inUse, lab), Start(lab, vnis, inUse);
    var r := Deconflicted(h, lab, vnis, inUse, ids);
    DeconflictPlaces(h, lab, vnis, inUse, ids);
    assert forall id :: id in vnis ==> id in Ids(ids);
    forall id | id in vnis ensures WellPlaced(named, start.taken, vnis[id], r.vnis[id]) {
      PlacedWell(named, start, r, ids, id);
    }
    assert Clashing(named, vnis, ids) == set id | id in vnis && OwnedByOther(inUse, lab, vnis[id]);
    assert forall other :: other in vnis ==> vnis[other] in Values(vnis);
  }

  // ---------- redeployment ----------

  /** The identifiers of a deployment recorded as the lab's own. */
  function Recorded(inUse: Owners, lab: string, vnis: Vnis): Owners {
    map v | v in inUse.Keys + Values(vnis) :: if v in Values(vnis) then lab else inUse[v]
  }

  /** Only what others have in use decides the result. */
  lemma OthersDecide(h: Hash, lab: string, vnis: Vnis, inUse: Owners, inUse': Owners, ids: seq<string>)
    requires Listing(ids, vnis)
    requires forall v :: v in Occupied(inUse, lab) + Occupied(inUse', lab) ==>
               v in inUse && v in inUse' && inUse[v] == inUse'[v]
    ensures Deconflicted(h, lab, vnis, inUse, ids) == Deconflicted(h, lab, vnis, inUse', ids)
  {
    assert Occupied(inUse, lab) == Occupied(inUse', lab) by {
      assert forall v :: v in Occupied(inUse, lab) <==> v in Occupied(inUse', lab);
    }
    assert Named(inUse, lab) == Named(inUse', lab) by {
      assert forall v :: v in Named(inUse, lab) ==> v in Occupied(inUse, lab);
      assert forall v :: v in Named(inUse', lab) ==> v in Occupied(inUse', lab);
    }
  }

  lemma RecordingKeepsNamed(inUse: Owners, lab: string, vnis: Vnis)
    requires forall id :: id in vnis ==> vnis[id] !in Named(inUse, lab)
    ensures Named(Recorded(inUse, lab, vnis), lab) == Named(inUse, lab)
  {
    forall v ensures v in Named(Recorded(inUse, lab, vnis), lab) <==> v in Named(inUse, lab) {}
  }

  lemma RecordingKeepsTaken(inUse: Owners, lab: string, vnis: Vnis, out: Vnis)
    requires forall id :: id in out ==> out[id] in Values(vnis) || out[id] !in Occupied(inUse, lab)
    ensures Occupied(Recorded(inUse, lab, out), lab) + Values(vnis) == Occupied(inUse, lab) + Values(vnis)
  {
    forall v ensures v in Occupied(Recorded(inUse, lab, out), lab) + Values(vnis)
                <==> v in Occupied(inUse, lab) + Values(vnis) {}
  }

  /** A redeploy that finds its own previous identifiers recorded assigns the same ones. */
  lemma RedeployIsStable(h: Hash, lab: string, vnis: Vnis, inUse: Owners, ids: seq<string>)
    requires Injective(vnis) && Listing(ids, vnis) && RoomToMove(h, lab, vnis, inUse)
    ensures var r := Deconflicted(h, lab, vnis, inUse, ids);
            Deconflicted(h, lab, vnis, Recorded(inUse, lab, r.vnis), ids) == r
  {
    var r := Deconflicted(h, lab, vnis, inUse, ids);
    DeconflictIsSafeAndMinimal(h, lab, vnis, inUse, ids);
    forall id | id in r.vnis
      ensures r.vnis[id] !in Named(inUse, lab)
      ensures r.vnis[id] in Values(vnis) || r.vnis[id] !in Occupied(inUse, lab)
    {
      assert WellPlaced(Named(inUse, lab), Occupied(inUse, lab) + Values(vnis), vnis[id], r.vnis[id]);
    }
    RecordingKeepsNamed(inUse, lab, r.vnis);
    RecordingKeepsTaken(inUse, lab, vnis, r.vnis);
  }

  // ---------- the loops ----------

  lemma {:induction false} TakenIsBounded(h: Hash, lab: string, named: set<nat>, p: Progress, ids: seq<string>)
    requires forall k | 0 <= k < |ids| :: ids[k] in p.vnis
    ensures |MoveAll(h, lab, named, p, ids).taken + named| <= |p.taken + named| + |ids|
  {
    if ids != [] {
      var init, last := ids[..|ids| - 1], ids[|ids| - 1];
      TakenIsBounded(h, lab, named, p, init);
      var q := MoveAll(h, lab, named, p, init);
      var r := MoveOne(h, lab, named, q, last);
      if q.vnis[last] in named {
        assert r.taken + named == (q.taken + named) + {r.vnis[last]};
      }
    }
  }

  method TakenAtStart(lab: string, vnis: Vnis, inUse: Owners) returns (taken: set<nat>)
    ensures taken == Start(lab, vnis, inUse).taken
  {
    taken := {};
    var todo := inUse.Keys;
    while todo != {}
      invariant todo <= inUse.Keys
      invariant forall v :: v in taken <==> v in Occupied(inUse, lab) && v !in todo
      decreases todo
    {
      var v :| v in todo;
      todo := todo - {v};
      if inUse[v] != lab { taken := taken + {v}; }
    }
    var left := vnis.Keys;
    while left != {}
      invariant left <= vnis.Keys
      invariant taken == Occupied(inUse, lab) + (set id | id in vnis && id !in left :: vnis[id])
      decreases left
    {
      var id :| id in left;
      left := left - {id};
      taken := taken + {vnis[id]};
    }
  }

  method LinkIds(vnis: Vnis) returns (ids: seq<string>)
    ensures Listing(ids, vnis)
  {
    var keys: seq<string> := [];
    var todo := vnis.Keys;
    while todo != {}
      invariant todo <= vnis.Keys && Distinct(keys) && Ids(keys) == vnis.Keys - todo
      decreases todo
    {
      var id :| id in todo;
      todo := todo - {id};
      assert id !in Ids(keys);
      IdsNext(keys, id);
      keys := keys + [id];
    }
    DistinctLength(keys);
    ids := SortedCopy(keys);
    SameElements(ids, keys);
    DistinctFromMultiset(ids);
  }

  lemma IdsNext(keys: seq<string>, id: string)
    ensures Ids(keys + [id]) == Ids(keys) + {id}
  {}

  lemma RepeatsCount(ids: seq<string>, i: nat, j: nat)
    requires i < j < |ids|
    ensures ids[i] == ids[j] ==> multiset(ids)[ids[i]] >= 2
  {
    assert ids == ids[..j] + [ids[j]] + ids[j + 1..];
    assert ids[i] in multiset(ids[..j]);
  }

  lemma DistinctFromMultiset(ids: seq<string>)
    requires multiset(ids) == multiset(Ids(ids))
    ensures Distinct(ids)
  {
    forall i, j | 0 <= i < j < |ids| ensures ids[i] != ids[j] {
      RepeatsCount(ids, i, j);
    }
  }

  /** The first candidate that is neither taken nor owned by another named lab. */
  method ProbeCandidate(h: Hash, lab: string, id: string, taken: set<nat>, inUse: Owners) returns (cand: nat)
    requires HasFree(h, lab, id, taken + Named(inUse, lab), 1)
    ensures cand == Vni(h, lab, id, Probe(h, lab, id, taken + Named(inUse, lab), 1))
  {
    ghost var bad := taken + Named(inUse, lab);
    ghost var end := Probe(h, lab, id, bad, 1);
    var salt := 1;
    cand := Vni(h, lab, id, salt);
    while cand in taken || (cand in inUse && inUse[cand] != "" && inUse[cand] != lab)
      invariant 1 <= salt <= end && cand == Vni(h, lab, id, salt)
      decreases end - salt
    {
      assert !FreeAt(h, lab, id, bad, salt);
      salt := salt + 1;
      cand := Vni(h, lab, id, salt);
    }
    assert FreeAt(h, lab, id, bad, salt);
  }

  /** Gives one link a new identifier when another named lab owns the one it has. */
  method MoveLink(h: Hash, lab: string, inUse: Owners, p: Progress, id: string) returns (next: Progress)
    requires id in p.vnis && HasFree(h, lab, id, p.taken + Named(inUse, lab), 1)
    ensures next == MoveOne(h, lab, Named(inUse, lab), p, id)
  {
    var v := p.vnis[id];
    if v in inUse && inUse[v] != lab && inUse[v] != "" {
      var taken := p.taken - {v};
      assert taken + Named(inUse, lab) == p.taken + Named(inUse, lab);
      var cand := ProbeCandidate(h, lab, id, taken, inUse);
      return Progress(p.vnis[id := cand], taken + {cand}, p.moved + 1);
    }
    next := p;
  }

  /** The free salt a link needs exists. */
  lemma RoomForNext(h: Hash, lab: string, vnis: Vnis, inUse: Owners, ids: seq<string>, i: nat)
    requires |ids| == |vnis| && RoomToMove(h, lab, vnis, inUse) && i < |ids|
    requires forall k | 0 <= k < |ids| :: ids[k] in vnis
    ensures var p := MoveAll(h, lab, Named(inUse, lab), Start(lab, vnis, inUse), ids[..i]);
            HasFree(h, lab, ids[i], p.taken + Named(inUse, lab), 1)
  {
    var start, named := Start(lab, vnis, inUse), Named(inUse, lab);
    assert start.taken + named == start.taken;
    TakenIsBounded(h, lab, named, start, ids[..i]);
  }

  method MoveLinks(h: Hash, lab: string, vnis: Vnis, inUse: Owners, ids: seq<string>) returns (p: Progress)
    requires |ids| == |vnis| && RoomToMove(h, lab, vnis, inUse)
    requires forall k | 0 <= k < |ids| :: ids[k] in vnis
    ensures p == MoveAll(h, lab, Named(inUse, lab), Start(lab, vnis, inUse), ids)
  {
    ghost var start, named := Start(lab, vnis, inUse), Named(inUse, lab);
    var taken := TakenAtStart(lab, vnis, inUse);
    p := Progress(vnis, taken, 0);
    var i := 0;
    while i < |ids|
      invariant i <= |ids|
      invariant p == MoveAll(h, lab, named, start, ids[..i])
    {
      MoveAllNext(h, lab, named, start, ids, i);
      RoomForNext(h, lab, vnis, inUse, ids, i);
      p := MoveLink(h, lab, inUse, p, ids[i]);
      i := i + 1;
    }
    assert ids[..|ids|] == ids;
  }

  method Deconflict(h: Hash, lab: string, vnis: Vnis, inUse: Owners) returns (out: Vnis, moved: nat)
    requires RoomToMove(h, lab, vnis, inUse)
    ensures forall ids | Listing(ids, vnis) ::
      var r := Deconflicted(h, lab, vnis, inUse, ids); out == r.vnis && moved == r.moved
  {
    var ids := LinkIds(vnis);
    DistinctLength(ids);
    assert forall k | 0 <= k < |ids| :: ids[k] in Ids(ids);
    var p := MoveLinks(h, lab, vnis, inUse, ids);
    out, moved := p.vnis, p.moved;
    forall other | Listing(other, vnis) ensures other == ids {
      DistinctLength(other);
      SortedIsUnique(other, ids);
    }
  }
}
