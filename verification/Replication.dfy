/**
 Durable replication: the choice of peers in distinct failure domains, and the
 acknowledgements a successful replication leaves behind.
 */
module Replication {
  import opened Common
  import opened StringOrder
  import opened Sorting

  datatype Node = Node(name: string, failureDomain: string)

  /** The failure domain of a node without a declared one is its name. */
  function Domain(n: Node): string {
    if n.failureDomain != "" then n.failureDomain else n.name
  }

  predicate ByName(a: Node, b: Node) { !Less(b.name, a.name) }

  lemma ByNameIsOrder()
    ensures IsOrder(ByName)
  {
    forall a, b ensures ByName(a, b) || ByName(b, a) {
      LessIsStrict(a.name, b.name);
    }
    forall a, b, c | ByName(a, b) && ByName(b, c) ensures ByName(a, c) {
      LessIsTransitive(a.name, b.name, c.name);
    }
  }

  // ---------- the choice of peers ----------

  predicate IsPeer(n: Node, self: string, local: string) {
    n.name != self && Domain(n) != local
  }

  /** The failure domains a copy can go to. */
  function PeerDomains(nodes: seq<Node>, self: string, local: string): set<string> {
    set n | n in nodes && IsPeer(n, self, local) :: Domain(n)
  }

  function Domains(nodes: seq<Node>): set<string> {
    set n | n in nodes :: Domain(n)
  }

  ghost predicate DistinctDomains(nodes: seq<Node>) {
    forall i, j | 0 <= i < j < |nodes| :: Domain(nodes[i]) != Domain(nodes[j])
  }

  /** The first peer of every other failure domain, in order. */
  function Picks(nodes: seq<Node>, self: string, local: string): seq<Node> {
    if nodes == [] then []
    else
      var rest, last := Picks(nodes[..|nodes| - 1], self, local), nodes[|nodes| - 1];
      if !IsPeer(last, self, local) || Domain(last) in Domains(rest) then rest else rest + [last]
  }

  lemma DomainsNext(nodes: seq<Node>, n: Node)
    ensures Domains(nodes + [n]) == Domains(nodes) + {Domain(n)}
  {
    forall d ensures d in Domains(nodes + [n]) <==> d in Domains(nodes) + {Domain(n)} {
      if d in Domains(nodes) {
        var x :| x in nodes && Domain(x) == d;
        assert x in nodes + [n];
      }
      if d == Domain(n) {
        assert n in nodes + [n];
      }
    }
  }

  lemma PeerDomainsNext(nodes: seq<Node>, n: Node, self: string, local: string)
    ensures PeerDomains(nodes + [n], self, local) ==
            PeerDomains(nodes, self, local) + (if IsPeer(n, self, local) then {Domain(n)} else {})
  {
    forall d | d in PeerDomains(nodes, self, local) ensures d in PeerDomains(nodes + [n], self, local) {
      var x :| x in nodes && IsPeer(x, self, local) && Domain(x) == d;
      assert x in nodes + [n];
    }
    assert n in nodes + [n];
  }

  lemma PickedNext(rest: seq<Node>, last: Node)
    requires DistinctDomains(rest) && Domain(last) !in Domains(rest)
    ensures DistinctDomains(rest + [last])
  {
    assert forall i | 0 <= i < |rest| :: rest[i] in rest && Domain(rest[i]) in Domains(rest);
  }

  lemma {:induction false} DistinctCount(nodes: seq<Node>)
    requires DistinctDomains(nodes)
    ensures |Domains(nodes)| == |nodes|
  {
    if nodes != [] {
      var init, last := nodes[..|nodes| - 1], nodes[|nodes| - 1];
      assert nodes == init + [last];
      DistinctCount(init);
      DomainsNext(init, last);
      assert Domain(last) !in Domains(init);
    }
  }

  /** One peer for each of the other domains, and no two in the same. */
  lemma {:induction false} PicksCoverDomains(nodes: seq<Node>, self: string, local: string)
    ensures var p := Picks(nodes, self, local);
            && Domains(p) == PeerDomains(nodes, self, local)
            && DistinctDomains(p)
            && (forall n :: n in p ==> n in nodes && IsPeer(n, self, local))
  {
    if nodes != [] {
      var init, last := nodes[..|nodes| - 1], nodes[|nodes| - 1];
      assert nodes == init + [last];
      PicksCoverDomains(init, self, local);
      PeerDomainsNext(init, last, self, local);
      var rest := Picks(init, self, local);
      if !IsPeer(last, self, local) {
      } else if Domain(last) in Domains(rest) {
        assert PeerDomains(nodes, self, local) == PeerDomains(init, self, local);
      } else {
        DomainsNext(rest, last);
        PickedNext(rest, last);
      }
    }
  }

  /** The peers of a node: `want` of them, one per failure domain, in name order. */
  ghost predicate AreTargets(nodes: seq<Node>, self: string, local: string, want: nat, targets: seq<Node>) {
    && |targets| == want
    && DistinctDomains(targets)
    && (forall n :: n in targets ==> n in nodes && IsPeer(n, self, local))
    && SortedBy(targets, ByName)
  }

  /** The first node of that name. */
  function FirstNamed(nodes: seq<Node>, name: string): (found: Option<Node>)
    ensures found.None? <==> forall n :: n in nodes ==> n.name != name
    ensures found.Some? ==> found.value in nodes && found.value.name == name
  {
    if nodes == [] then None
    else if nodes[0].name == name then Some(nodes[0])
    else FirstNamed(nodes[1..], name)
  }

  method FindNode(nodes: seq<Node>, name: string) returns (found: Option<Node>)
    ensures found == FirstNamed(nodes, name)
  {
    var i := 0;
    while i < |nodes|
      invariant i <= |nodes|
      invariant FirstNamed(nodes, name) == FirstNamed(nodes[i..], name)
    {
      if nodes[i].name == name { return Some(nodes[i]); }
      assert nodes[i..][1..] == nodes[i + 1..];
      i := i + 1;
    }
    found := None;
  }

  lemma {:induction false} PicksInOrder(nodes: seq<Node>, self: string, local: string)
    requires SortedBy(nodes, ByName)
    ensures SortedBy(Picks(nodes, self, local), ByName)
    ensures forall n :: n in Picks(nodes, self, local) ==> n in nodes
  {
    if nodes != [] {
      var init, last := nodes[..|nodes| - 1], nodes[|nodes| - 1];
      assert nodes == init + [last];
      PicksInOrder(init, self, local);
      var rest := Picks(init, self, local);
      forall i | 0 <= i < |rest| ensures ByName(rest[i], last) {
        assert rest[i] in rest && rest[i] in init;
      }
    }
  }

  /** What was picked among the first nodes is what is picked first. */
  lemma {:induction false} PicksPrefix(nodes: seq<Node>, i: nat, self: string, local: string)
    requires i <= |nodes|
    ensures Picks(nodes[..i], self, local) <= Picks(nodes, self, local)
    decreases |nodes| - i
  {
    if i < |nodes| {
      assert nodes[..i + 1][..i] == nodes[..i];
      PicksPrefix(nodes, i + 1, self, local);
    } else {
      assert nodes[..i] == nodes;
    }
  }

  lemma PicksNext(nodes: seq<Node>, i: nat, self: string, local: string)
    requires i < |nodes|
    ensures var rest := Picks(nodes[..i], self, local);
            Picks(nodes[..i + 1], self, local) ==
            if !IsPeer(nodes[i], self, local) || Domain(nodes[i]) in Domains(rest) then rest else rest + [nodes[i]]
  {
    assert nodes[..i + 1][..i] == nodes[..i];
  }

  /** Takes the first peer of each new domain until there are enough. */
  method PickTargets(nodes: seq<Node>, self: string, local: string, want: nat) returns (targets: Option<seq<Node>>)
    requires want > 0
    ensures targets == (var p := Picks(nodes, self, local); if |p| >= want then Some(p[..want]) else None)
  {
    var used, out: seq<Node> := {local}, [];
    var i := 0;
    while i < |nodes| && |out| < want
      invariant i <= |nodes| && |out| <= want
      invariant out == Picks(nodes[..i], self, local) && used == {local} + Domains(out)
    {
      var node := nodes[i];
      PicksNext(nodes, i, self, local);
      if node.name != self && Domain(node) !in used {
        DomainsNext(out, node);
        out := out + [node];
        used := used + {Domain(node)};
      }
      i := i + 1;
    }
    PicksPrefix(nodes, i, self, local);
    if |out| == want {
      assert out == Picks(nodes, self, local)[..want];
      return Some(out);
    }
    assert nodes[..i] == nodes;
    targets := None;
  }

  /**
   Chooses the peers a factor asks for. It fails exactly when the node is not
   placed or too few other failure domains exist.
   */
  method ReplicaTargets(nodes: seq<Node>, self: string, factor: int) returns (targets: Option<seq<Node>>)
    ensures var local := FirstNamed(nodes, self);
      && (targets.Some? <==>
            || factor == 1
            || (factor > 1 && local.Some? && |PeerDomains(nodes, self, Domain(local.value))| >= factor - 1))
      && (targets.Some? && factor == 1 ==> targets.value == [])
      && (targets.Some? && factor > 1 ==>
            AreTargets(nodes, self, Domain(local.value), factor - 1, targets.value))
  {
    if factor < 1 { return None; }
    if factor == 1 { return Some([]); }
    var found := FindNode(nodes, self);
    if found.None? { return None; }
    var local := Domain(found.value);
    ByNameIsOrder();
    var sorted := SortBy(nodes, ByName);
    SameMembers(sorted, nodes);
    targets := PickTargets(sorted, self, local, factor - 1);
    PicksCoverDomains(sorted, self, local);
    DistinctCount(Picks(sorted, self, local));
    PicksInOrder(sorted, self, local);
    assert PeerDomains(sorted, self, local) == PeerDomains(nodes, self, local);
  }

  // ---------- acknowledgements ----------

  datatype Ack = Ack(node: string, failureDomain: string, digest: string)

  type Status = map<string, seq<Ack>>

  predicate AckOrder(a: Ack, b: Ack) {
    if a.node != b.node then !Less(b.node, a.node) else !Less(b.digest, a.digest)
  }

  lemma AckOrderIsOrder()
    ensures IsOrder(AckOrder)
  {
    forall a, b ensures AckOrder(a, b) || AckOrder(b, a) {
      LessIsStrict(a.node, b.node);
      LessIsStrict(a.digest, b.digest);
    }
    forall a, b, c | AckOrder(a, b) && AckOrder(b, c) ensures AckOrder(a, c) {
      LessIsTotal(a.node, b.node);
      LessIsTotal(b.node, c.node);
      LessIsStrict(a.node, b.node);
      if !Less(b.node, a.node) && !Less(c.node, b.node) {
        LessIsTransitive(a.node, b.node, c.node);
        LessIsTotal(a.node, c.node);
      }
      if !Less(b.digest, a.digest) && !Less(c.digest, b.digest) {
        LessIsTransitive(a.digest, b.digest, c.digest);
      }
    }
  }

  /** Replaces the acknowledgement of one node. */
  method AppendAck(existing: seq<Ack>, next: Ack) returns (acks: seq<Ack>)
    ensures forall a :: a in acks <==> a == next || (a in existing && a.node != next.node)
    ensures SortedBy(acks, AckOrder)
  {
    var kept: seq<Ack> := [];
    var i := 0;
    while i < |existing|
      invariant i <= |existing|
      invariant forall a :: a in kept <==> a in existing[..i] && a.node != next.node
    {
      assert existing[..i + 1] == existing[..i] + [existing[i]];
      if existing[i].node != next.node {
        kept := kept + [existing[i]];
      }
      i := i + 1;
    }
    assert existing[..|existing|] == existing;
    AckOrderIsOrder();
    acks := SortBy(kept + [next], AckOrder);
    SameMembers(acks, kept + [next]);
  }
}
