/**
 Replication to the chosen peers: success means that the persisted status holds,
 for every current artifact, the current digest from enough peers in pairwise
 distinct failure domains other than the local one.
 */
module ReplicaQuorum {
  import opened Common
  import opened Replication

  /** Artifact keys with their current digests. */
  type Digests = map<string, string>

  /** What a peer answers: its inventory, and its acknowledgements of an import; None is an error. */
  datatype Peer = Peer(inventory: Option<Digests>, imported: Option<Digests>)

  /** A missing key reads as the empty digest. */
  function Lookup(digests: Digests, key: string): string {
    if key in digests then digests[key] else ""
  }

  function AcksOf(status: Status, key: string): seq<Ack> {
    if key in status then status[key] else []
  }

  predicate Confirms(acked: Digests, expected: Digests) {
    forall key :: key in expected ==> Lookup(acked, key) == expected[key]
  }

  /** What a peer confirmed: its inventory, and an import of what it lacked. */
  function Acked(peer: Peer, expected: Digests): Option<Digests> {
    match peer.inventory
    case None => None
    case Some(have) =>
      if Confirms(have, expected) then Some(have)
      else if peer.imported.None? then None
      else Some(have + peer.imported.value)
  }

  function AckFrom(target: Node, digest: string): Ack {
    Ack(target.name, Domain(target), digest)
  }

  /** The acknowledgements of one key after a target confirmed it. */
  ghost predicate Acknowledged(before: seq<Ack>, after: seq<Ack>, target: Node, digest: string) {
    forall a :: a in after <==> a == AckFrom(target, digest) || (a in before && a.node != target.name)
  }

  /** Enough peers in distinct foreign domains hold the digest. */
  ghost predicate HasQuorum(acks: seq<Ack>, digest: string, local: string, copies: nat) {
    exists peers: seq<Node> ::
      && |peers| == copies && DistinctDomains(peers)
      && forall n :: n in peers ==> Domain(n) != local && AckFrom(n, digest) in acks
  }

  predicate UniqueNames(nodes: seq<Node>) {
    forall i, j | 0 <= i < j < |nodes| :: nodes[i].name != nodes[j].name
  }

  lemma DistinctDomainsOfUnique(nodes: seq<Node>, targets: seq<Node>)
    requires UniqueNames(nodes) && DistinctDomains(targets) && forall n :: n in targets ==> n in nodes
    ensures UniqueNames(targets)
  {
    forall i, j | 0 <= i < j < |targets| ensures targets[i].name != targets[j].name {
      assert targets[i] in targets && targets[j] in targets;
      var p :| 0 <= p < |nodes| && nodes[p] == targets[i];
      var q :| 0 <= q < |nodes| && nodes[q] == targets[j];
      assert p != q;
    }
  }

  // ---------- one target ----------

  method Missing(have: Digests, expected: Digests) returns (missing: set<string>)
    ensures missing == {} <==> Confirms(have, expected)
  {
    missing := {};
    var todo := expected.Keys;
    while todo != {}
      invariant todo <= expected.Keys
      invariant missing == {} <==>
        forall key :: key in expected && key !in todo ==> Lookup(have, key) == expected[key]
      decreases todo
    {
      var key :| key in todo;
      todo := todo - {key};
      if Lookup(have, key) != expected[key] { missing := missing + {key}; }
    }
  }

  method AskPeer(peer: Peer, expected: Digests) returns (acked: Option<Digests>)
    ensures acked == Acked(peer, expected)
    ensures acked.Some? ==>
      && peer.inventory.Some?
      && forall key :: key in acked.value ==>
           || (key in peer.inventory.value && acked.value[key] == peer.inventory.value[key])
           || (peer.imported.Some? && key in peer.imported.value && acked.value[key] == peer.imported.value[key])
    ensures acked.None? <==>
      || peer.inventory.None?
      || (&& peer.imported.None?
          && exists key :: key in expected && Lookup(peer.inventory.value, key) != expected[key])
  {
    if peer.inventory.None? { return None; }
    var have := peer.inventory.value;
    var missing := Missing(have, expected);
    if missing == {} { return Some(have); }
    if peer.imported.None? { return None; }
    acked := Some(have + peer.imported.value);
  }

  /** Records the acknowledgement of every key, or stops at the first the peer did not confirm. */
  method Acknowledge(expected: Digests, acked: Digests, target: Node, status: Status)
    returns (ok: bool, next: Status)
    ensures ok <==> Confirms(acked, expected)
    ensures ok ==> forall key ::
      if key in expected then Acknowledged(AcksOf(status, key), AcksOf(next, key), target, expected[key])
      else AcksOf(next, key) == AcksOf(status, key)
  {
    next := status;
    var todo := expected.Keys;
    while todo != {}
      invariant todo <= expected.Keys
      invariant forall key :: key in expected && key !in todo ==> Lookup(acked, key) == expected[key]
      invariant forall key ::
        if key in expected && key !in todo
        then Acknowledged(AcksOf(status, key), AcksOf(next, key), target, expected[key])
        else AcksOf(next, key) == AcksOf(status, key)
      decreases todo
    {
      var key :| key in todo;
      todo := todo - {key};
      if Lookup(acked, key) != expected[key] { return false, next; }
      var acks := AppendAck(AcksOf(next, key), AckFrom(target, expected[key]));
      next := next[key := acks];
    }
    ok := true;
  }

  // ---------- every target ----------

  /** The first `n` targets acknowledged every key. */
  ghost predicate AllAcknowledged(status: Status, expected: Digests, targets: seq<Node>, n: nat)
    requires n <= |targets|
  {
    forall j, key | 0 <= j < n && key in expected ::
      AckFrom(targets[j], expected[key]) in AcksOf(status, key)
  }

  lemma NextAcknowledged(status: Status, next: Status, expected: Digests, targets: seq<Node>, n: nat)
    requires n < |targets| && UniqueNames(targets) && AllAcknowledged(status, expected, targets, n)
    requires forall key :: key in expected ==>
      Acknowledged(AcksOf(status, key), AcksOf(next, key), targets[n], expected[key])
    ensures AllAcknowledged(next, expected, targets, n + 1)
  {
    forall j, key | 0 <= j < n + 1 && key in expected
      ensures AckFrom(targets[j], expected[key]) in AcksOf(next, key)
    {
      assert Acknowledged(AcksOf(status, key), AcksOf(next, key), targets[n], expected[key]);
      if j < n {
        assert AckFrom(targets[j], expected[key]) in AcksOf(status, key);
        assert targets[j].name != targets[n].name;
      }
    }
  }

  /** The peer itself said that it has the digest: in its inventory or after an import. */
  predicate Said(peer: Peer, key: string, digest: string) {
    && peer.inventory.Some?
    && (|| (key in peer.inventory.value && peer.inventory.value[key] == digest)
        || (peer.imported.Some? && key in peer.imported.value && peer.imported.value[key] == digest))
  }

  lemma ConfirmedWasSaid(peer: Peer, expected: Digests, key: string)
    requires Acked(peer, expected).Some? && Confirms(Acked(peer, expected).value, expected)
    requires key in expected && expected[key] != ""
    ensures Said(peer, key, expected[key])
  {
    assert Lookup(Acked(peer, expected).value, key) == expected[key];
  }

  method CollectAcks(targets: seq<Node>, expected: Digests, peers: map<string, Peer>, status: Status)
    returns (ok: bool, next: Status)
    requires UniqueNames(targets)
    ensures ok ==> AllAcknowledged(next, expected, targets, |targets|)
    ensures ok <==> forall n :: n in targets ==>
      && n.name in peers && Acked(peers[n.name], expected).Some?
      && Confirms(Acked(peers[n.name], expected).value, expected)
    ensures ok ==> forall n, key | n in targets && key in expected && expected[key] != "" ::
      n.name in peers && Said(peers[n.name], key, expected[key])
  {
    next := status;
    var i := 0;
    while i < |targets|
      invariant i <= |targets| && AllAcknowledged(next, expected, targets, i)
      invariant forall j | 0 <= j < i ::
        && targets[j].name in peers && Acked(peers[targets[j].name], expected).Some?
        && Confirms(Acked(peers[targets[j].name], expected).value, expected)
    {
      var target := targets[i];
      assert target in targets;
      if target.name !in peers { return false, next; }
      var acked := AskPeer(peers[target.name], expected);
      if acked.None? { return false, next; }
      ghost var before := next;
      var confirmed;
      confirmed, next := Acknowledge(expected, acked.value, target, next);
      if !confirmed { return false, next; }
      NextAcknowledged(before, next, expected, targets, i);
      i := i + 1;
    }
    forall n, key | n in targets && key in expected && expected[key] != ""
      ensures n.name in peers && Said(peers[n.name], key, expected[key])
    {
      ConfirmedWasSaid(peers[n.name], expected, key);
    }
    ok := true;
  }

  lemma QuorumFromTargets(nodes: seq<Node>, self: string, local: string, targets: seq<Node>, status: Status,
                          expected: Digests, key: string)
    requires AreTargets(nodes, self, local, |targets|, targets)
    requires AllAcknowledged(status, expected, targets, |targets|) && key in expected
    ensures HasQuorum(AcksOf(status, key), expected[key], local, |targets|)
  {
    forall n | n in targets ensures Domain(n) != local && AckFrom(n, expected[key]) in AcksOf(status, key) {
      var j :| 0 <= j < |targets| && targets[j] == n;
      assert IsPeer(n, self, local);
    }
  }

  /** Every current artifact has its quorum beyond the node itself. */
  ghost predicate Replicated(nodes: seq<Node>, self: string, factor: int, expected: Digests, status: Status) {
    var local := FirstNamed(nodes, self);
    && factor > 1 && local.Some?
    && forall key :: key in expected ==>
         HasQuorum(AcksOf(status, key), expected[key], Domain(local.value), factor - 1)
  }

  // ---------- the server ----------

  class Server {
    const node: string
    /** The persisted replica status, if there is one. */
    var replicas: Option<Status>

    constructor (name: string, status: Option<Status>)
      ensures node == name && replicas == status
    {
      node, replicas := name, status;
    }

    /** The placement names every node once, as manifest validation requires. */
    method ReplicateDurableState(nodes: seq<Node>, factor: int, expected: Digests, peers: map<string, Peer>,
                                 saved: bool, pruned: bool)
      returns (ok: bool)
      requires UniqueNames(nodes)
      modifies this
      ensures ok && factor > 1 && expected != map[] ==>
        replicas.Some? && Replicated(nodes, node, factor, expected, replicas.value)
      ensures replicas == old(replicas)
           || (saved && replicas.Some? && Replicated(nodes, node, factor, expected, replicas.value))
      ensures factor == 1 ==> ok
      ensures factor < 1 ==> !ok
      ensures
        var local := FirstNamed(nodes, node);
        && factor > 1 && local.Some? && |PeerDomains(nodes, node, Domain(local.value))| >= factor - 1
        && saved && pruned
        && (forall n :: n in nodes && IsPeer(n, node, Domain(local.value)) ==>
              n.name in peers && Acked(peers[n.name], expected).Some?
              && Confirms(Acked(peers[n.name], expected).value, expected))
        ==> ok
    {
      var targets := ReplicaTargets(nodes, node, factor);
      if targets.None? { return false; }
      if |targets.value| == 0 || expected == map[] { return true; }
      var status := if replicas.Some? then replicas.value else map[];
      DistinctDomainsOfUnique(nodes, targets.value);
      var acknowledged, next := CollectAcks(targets.value, expected, peers, status);
      if !acknowledged || !saved { return false; }
      replicas := Some(next);
      forall key | key in expected
        ensures HasQuorum(AcksOf(next, key), expected[key], Domain(FirstNamed(nodes, node).value), factor - 1)
      {
        QuorumFromTargets(nodes, node, Domain(FirstNamed(nodes, node).value), targets.value, next, expected, key);
      }
      ok := pruned;
    }
  }
}
