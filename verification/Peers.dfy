/** `peers.go` and the selection of partitions: the members of the cluster, the hash ring over their
    shards, and what each node is responsible for. The ring itself is known by its contract only. */
module Peers {
  import opened Bytes
  import opened ZkNames

  datatype Peer = Peer(shardID: string, address: string)

  const PEER_SELF := "(self)"

  /** `consistent.Set(members)` followed by `GetN(id, n)`: a function of the set of members. */
  type Ring = (set<string>, string, nat) -> seq<string>

  function Min(a: nat, b: nat): nat {
    if a <= b then a else b
  }

  /** The ring returns as many distinct members as there are, up to the number asked for. */
  ghost predicate RingOk(ring: Ring) {
    forall members: set<string>, id: string, n: nat :: members != {} && n > 0 ==>
      var picked := ring(members, id, n);
      && |picked| == Min(n, |members|)
      && Distinct(picked)
      && forall i :: 0 <= i < |picked| ==> picked[i] in members
  }

  /** The members listed other than oneself. */
  function PeersOf(nodes: seq<string>, self: string): set<Peer>
    requires WellFormed(nodes)
  {
    set node | node in nodes && Split(node).1 != self :: Peer(Split(node).0, Split(node).1)
  }

  function Shards(peers: set<Peer>): set<string> {
    set p | p in peers :: p.shardID
  }

  /** The addresses `pick` returns, as a set. */
  function Picked(peers: set<Peer>, picked: seq<string>, own: string): set<string> {
    (set p | p in peers && p.shardID in picked :: p.address) + if own in picked then {PEER_SELF} else {}
  }

  class PeerSet {
    const shardID: string
    const address: string
    var peers: set<Peer>
    var members: set<string>

    constructor (shardID: string, address: string)
      ensures this.shardID == shardID && this.address == address && peers == {} && members == {}
    {
      this.shardID, this.address, peers, members := shardID, address, {}, {};
    }

    /** The ring covers the shards of the listed peers and always our own. A name without `@` is an index
        out of range, before anything is assigned. */
    method UpdatePeers(nodes: seq<string>) returns (panicked: bool)
      modifies this
      ensures panicked <==> !WellFormed(nodes)
      ensures panicked ==> peers == old(peers) && members == old(members)
      ensures !panicked ==> peers == PeersOf(nodes, address) && members == Shards(PeersOf(nodes, address)) + {shardID}
    {
      var newPeers: set<Peer> := {};
      var shards: set<string> := {};
      for i := 0 to |nodes|
        invariant WellFormed(nodes[..i]) && newPeers == PeersOf(nodes[..i], address) && shards == Shards(newPeers)
        invariant peers == old(peers) && members == old(members)
      {
        if '@' !in nodes[i] {
          return true;
        }
        assert nodes[..i + 1] == nodes[..i] + [nodes[i]];
        PeersOfNext(nodes, address, i);
        var (id, addr) := Split(nodes[i]);
        if addr == address {
          continue;
        }
        shards := shards + {id};
        newPeers := newPeers + {Peer(id, addr)};
      }
      assert nodes[..|nodes|] == nodes;
      members := shards + {shardID};
      peers := newPeers;
      return false;
    }

    method Pick(ring: Ring, partitionId: string, n: nat) returns (addrs: seq<string>)
      ensures forall a :: a in addrs <==> a in Picked(peers, ring(members, partitionId, n), shardID)
    {
      var picked := ring(members, partitionId, n);
      addrs := [];
      var left := peers;
      while left != {}
        invariant left <= peers
        invariant forall a :: a in addrs <==> exists p :: p in peers - left && p.shardID in picked && p.address == a
        decreases left
      {
        var p :| p in left;
        left := left - {p};
        if p.shardID in picked {
          addrs := addrs + [p.address];
        }
      }
      if shardID in picked {
        addrs := addrs + [PEER_SELF];
      }
    }
  }

  lemma PeersOfNext(nodes: seq<string>, self: string, i: nat)
    requires i < |nodes| && WellFormed(nodes[..i + 1])
    ensures var (id, addr) := Split(nodes[i]);
            PeersOf(nodes[..i + 1], self) == PeersOf(nodes[..i], self) + if addr == self then {} else {Peer(id, addr)}
  {
    assert nodes[..i + 1] == nodes[..i] + [nodes[i]];
  }

  // ---------------------------------------------------------------- selection

  /** `partitionId`. */
  function PartitionId(zkPath: string, partition: nat): string {
    zkPath + ":" + Print05(partition)
  }

  lemma PrintedDigit(p: nat, i: nat)
    requires i < |Print05(p)|
    ensures Print05(p)[i] != ':'
  {
    DecimalValue(p);
    PaddingKeepsValue(Decimal(p));
  }

  lemma SameSplit(zkPath: string, p: nat, other: string, q: nat)
    requires PartitionId(zkPath, p) == PartitionId(other, q)
    ensures |other| <= |zkPath|
  {
    hide Print05;
    if |zkPath| < |other| {
      var i := |other| - |zkPath| - 1;
      assert PartitionId(zkPath, p)[|other|] == Print05(p)[i];
      assert PartitionId(other, q)[|other|] == ':';
      PrintedDigit(p, i);
    }
  }

  /** Different partitions, and different versions, are placed on the ring by different identifiers. */
  lemma PartitionIdInjective(zkPath: string, p: nat, other: string, q: nat)
    requires PartitionId(zkPath, p) == PartitionId(other, q)
    ensures zkPath == other && p == q
  {
    hide Print05;
    SameSplit(zkPath, p, other, q);
    SameSplit(other, q, zkPath, p);
    var n := |zkPath|;
    assert PartitionId(zkPath, p)[..n] == zkPath && PartitionId(other, q)[..n] == other;
    assert PartitionId(zkPath, p)[n + 1..] == Print05(p) && PartitionId(other, q)[n + 1..] == Print05(q);
    PrintThenRead(p);
    PrintThenRead(q);
  }

  /** The partitions a shard is responsible for. */
  function Selection(ring: Ring, shards: set<string>, zkPath: string, total: nat, replication: nat, shard: string): set<nat> {
    set i | 0 <= i < total && shard in ring(shards, PartitionId(zkPath, i), replication)
  }

  function UpTo(n: nat): (r: set<nat>)
    ensures forall i: nat :: i in r <==> i < n
  {
    if n == 0 then {} else UpTo(n - 1) + {n - 1}
  }

  /** `pickLocalPartitions`; null for a node that is not in a cluster and takes everything. */
  method PickLocalPartitions(peers: PeerSet?, ring: Ring, zkPath: string, total: nat, replication: nat) returns (selected: set<nat>)
    requires peers != null ==> forall p :: p in peers.peers ==> p.address != PEER_SELF
    ensures selected == if peers == null then UpTo(total)
                        else Selection(ring, peers.members, zkPath, total, replication, peers.shardID)
  {
    selected := {};
    for i := 0 to total
      invariant selected == if peers == null then UpTo(i)
                            else Selection(ring, peers.members, zkPath, i, replication, peers.shardID)
    {
      if peers != null {
        var replicas := peers.Pick(ring, PartitionId(zkPath, i), replication);
        for k := 0 to |replicas|
          invariant selected == Selection(ring, peers.members, zkPath, i, replication, peers.shardID)
                              + if exists j :: 0 <= j < k && replicas[j] == PEER_SELF then {i} else {}
        {
          if replicas[k] == PEER_SELF {
            selected := selected + {i};
          }
        }
        assert (exists j :: 0 <= j < |replicas| && replicas[j] == PEER_SELF) <==> PEER_SELF in replicas;
      } else {
        selected := selected + {i};
      }
    }
  }
}
