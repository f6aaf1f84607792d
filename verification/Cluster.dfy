/** What the nodes of a cluster do together once they agree on who the members are. */
module Cluster {
  import opened Bytes
  import opened ZkNames
  import opened Peers
  import Latch
  import Partitions

  /** Distinct addresses, and shard names that can be told from addresses. */
  ghost predicate Membership(members: set<Peer>) {
    && members != {}
    && (forall x, y :: x in members && y in members && x.address == y.address ==> x == y)
    && (forall x :: x in members ==> '@' !in x.shardID && x.address != PEER_SELF)
  }

  ghost predicate IsNodeOf(node: string, members: set<Peer>) {
    exists x :: x in members && node == Join(x.shardID, x.address)
  }

  /** A listing of the member nodes, in any order. */
  ghost predicate Announces(nodes: seq<string>, members: set<Peer>) {
    && (forall node :: node in nodes ==> IsNodeOf(node, members))
    && (forall x :: x in members ==> Join(x.shardID, x.address) in nodes)
  }

  lemma AnnouncedParse(node: string, members: set<Peer>) returns (x: Peer)
    requires Membership(members) && IsNodeOf(node, members)
    ensures x in members && '@' in node && Split(node) == (x.shardID, x.address)
  {
    x :| x in members && node == Join(x.shardID, x.address);
    SplitJoin(x.shardID, x.address);
  }

  lemma AnnouncedWellFormed(nodes: seq<string>, members: set<Peer>)
    requires Membership(members) && Announces(nodes, members)
    ensures WellFormed(nodes)
  {
    forall node | node in nodes ensures '@' in node {
      var x := AnnouncedParse(node, members);
    }
  }

  /** Every member reads the same list as "everyone but me", and its ring covers the same shards. */
  lemma CommonView(nodes: seq<string>, members: set<Peer>, me: Peer)
    requires Membership(members) && Announces(nodes, members) && me in members
    ensures WellFormed(nodes)
    ensures PeersOf(nodes, me.address) == members - {me}
    ensures Shards(PeersOf(nodes, me.address)) + {me.shardID} == Shards(members)
  {
    AnnouncedWellFormed(nodes, members);
    var ps := PeersOf(nodes, me.address);
    forall p | p in ps ensures p in members - {me} {
      var node :| node in nodes && Split(node).1 != me.address && p == Peer(Split(node).0, Split(node).1);
      var x := AnnouncedParse(node, members);
    }
    forall x | x in members - {me} ensures x in ps {
      assert Join(x.shardID, x.address) in nodes;
      SplitJoin(x.shardID, x.address);
    }
    assert ps == members - {me};
    forall s | s in Shards(members) ensures s in Shards(ps) + {me.shardID} {
      var x :| x in members && x.shardID == s;
      assert x == me || x in ps;
    }
  }

  /** The partitions a member selects under the common view. */
  function SelectedBy(ring: Ring, members: set<Peer>, zkPath: string, total: nat, replication: nat, me: Peer): set<nat> {
    Selection(ring, Shards(members), zkPath, total, replication, me.shardID)
  }

  /** Nodes with the same shard are responsible for the same partitions; that is what a node computes
      from the member list it read. */
  lemma SelectionFollowsShard(ring: Ring, nodes: seq<string>, members: set<Peer>, zkPath: string, total: nat, replication: nat, x: Peer, y: Peer)
    requires Membership(members) && Announces(nodes, members) && x in members && y in members && x.shardID == y.shardID
    ensures WellFormed(nodes)
    ensures Selection(ring, Shards(PeersOf(nodes, x.address)) + {x.shardID}, zkPath, total, replication, x.shardID)
         == Selection(ring, Shards(PeersOf(nodes, y.address)) + {y.shardID}, zkPath, total, replication, y.shardID)
         == SelectedBy(ring, members, zkPath, total, replication, x)
  {
    CommonView(nodes, members, x);
    CommonView(nodes, members, y);
  }

  // ---------------------------------------------------------------- replication

  /** Members agree on who is responsible: whom one picks for a partition are exactly the members that
      select it themselves, and itself under its own mark. */
  lemma MembersAgree(ring: Ring, nodes: seq<string>, members: set<Peer>, zkPath: string, total: nat, replication: nat, me: Peer, p: nat, a: string)
    requires Membership(members) && Announces(nodes, members) && me in members && p < total
    ensures WellFormed(nodes)
    ensures var peers := PeersOf(nodes, me.address);
            (a in Picked(peers, ring(Shards(peers) + {me.shardID}, PartitionId(zkPath, p), replication), me.shardID)) ==
            ((a == PEER_SELF && p in SelectedBy(ring, members, zkPath, total, replication, me)) ||
             (exists y :: y in members && y != me && y.address == a && p in SelectedBy(ring, members, zkPath, total, replication, y)))
  {
    hide PartitionId, PeersOf, Announces, Membership, Shards;
    CommonView(nodes, members, me);
  }

  function Elements(s: seq<string>): set<string> {
    set x | x in s
  }

  lemma {:induction false} DistinctCount(s: seq<string>)
    requires Distinct(s)
    ensures |Elements(s)| == |s|
  {
    if s != [] {
      var n := |s| - 1;
      DistinctCount(s[..n]);
      assert Elements(s) == Elements(s[..n]) + {s[n]};
    }
  }

  /** The shards responsible for a partition. */
  function Replicas(ring: Ring, shards: set<string>, zkPath: string, total: nat, replication: nat, partition: nat): set<string> {
    set s | s in shards && partition in Selection(ring, shards, zkPath, total, replication, s)
  }

  /** Each partition is selected by exactly min(replication, number of shards) shards. */
  lemma ReplicationExact(ring: Ring, shards: set<string>, zkPath: string, total: nat, replication: nat, partition: nat)
    requires RingOk(ring) && shards != {} && replication > 0 && partition < total
    ensures |Replicas(ring, shards, zkPath, total, replication, partition)| == Min(replication, |shards|)
  {
    var picked := ring(shards, PartitionId(zkPath, partition), replication);
    DistinctCount(picked);
    assert Replicas(ring, shards, zkPath, total, replication, partition) == Elements(picked);
  }

  /** The sizes of the selections of a list of shards, added up. */
  function TotalSelected(ring: Ring, shards: set<string>, zkPath: string, total: nat, replication: nat, list: seq<string>): nat {
    if list == [] then 0
    else
      var first := |Selection(ring, shards, zkPath, total, replication, list[0])|;
      first + TotalSelected(ring, shards, zkPath, total, replication, list[1..])
  }

  function CountIn(list: seq<string>, s: seq<string>): nat {
    if list == [] then 0 else (if list[0] in s then 1 else 0) + CountIn(list[1..], s)
  }

  lemma SelectionNext(ring: Ring, shards: set<string>, zkPath: string, total: nat, replication: nat, shard: string)
    ensures |Selection(ring, shards, zkPath, total + 1, replication, shard)|
         == |Selection(ring, shards, zkPath, total, replication, shard)|
          + if shard in ring(shards, PartitionId(zkPath, total), replication) then 1 else 0
  {
    var a, b := Selection(ring, shards, zkPath, total, replication, shard), Selection(ring, shards, zkPath, total + 1, replication, shard);
    if shard in ring(shards, PartitionId(zkPath, total), replication) {
      assert b == a + {total};
    } else {
      assert b == a;
    }
  }

  lemma {:induction false} TotalNext(ring: Ring, shards: set<string>, zkPath: string, total: nat, replication: nat, list: seq<string>)
    ensures TotalSelected(ring, shards, zkPath, total + 1, replication, list)
         == TotalSelected(ring, shards, zkPath, total, replication, list)
          + CountIn(list, ring(shards, PartitionId(zkPath, total), replication))
  {
    if list != [] {
      SelectionNext(ring, shards, zkPath, total, replication, list[0]);
      TotalNext(ring, shards, zkPath, total, replication, list[1..]);
    }
  }

  lemma {:induction false} CountInDistinct(list: seq<string>, s: seq<string>)
    requires Distinct(list)
    ensures CountIn(list, s) == |set x | x in list && x in s|
  {
    if list != [] {
      CountInDistinct(list[1..], s);
      var rest := set x | x in list[1..] && x in s;
      assert list == [list[0]] + list[1..];
      if list[0] in s {
        assert (set x | x in list && x in s) == rest + {list[0]};
      } else {
        assert (set x | x in list && x in s) == rest;
      }
    }
  }

  lemma {:induction false} NothingSelected(ring: Ring, shards: set<string>, zkPath: string, replication: nat, list: seq<string>)
    ensures TotalSelected(ring, shards, zkPath, 0, replication, list) == 0
  {
    if list != [] {
      assert Selection(ring, shards, zkPath, 0, replication, list[0]) == {};
      NothingSelected(ring, shards, zkPath, replication, list[1..]);
    }
  }

  /** Conservation: added up over all shards, the selections are partitions times replicas. */
  lemma {:induction false} SelectionsAddUp(ring: Ring, shards: set<string>, zkPath: string, total: nat, replication: nat, list: seq<string>)
    requires RingOk(ring) && shards != {} && replication > 0
    requires Distinct(list) && Elements(list) == shards
    ensures TotalSelected(ring, shards, zkPath, total, replication, list) == total * Min(replication, |shards|)
    decreases total
  {
    hide RingOk, Selection, PartitionId;
    if total == 0 {
      NothingSelected(ring, shards, zkPath, replication, list);
    } else {
      SelectionsAddUp(ring, shards, zkPath, total - 1, replication, list);
      TotalNext(ring, shards, zkPath, total - 1, replication, list);
      EachPartitionCounts(ring, shards, PartitionId(zkPath, total - 1), replication, list);
      var m := Min(replication, |shards|);
      assert (total - 1) * m + m == total * m;
    }
  }

  lemma EachPartitionCounts(ring: Ring, shards: set<string>, id: string, replication: nat, list: seq<string>)
    requires RingOk(ring) && shards != {} && replication > 0
    requires Distinct(list) && Elements(list) == shards
    ensures CountIn(list, ring(shards, id, replication)) == Min(replication, |shards|)
  {
    var picked := ring(shards, id, replication);
    CountInDistinct(list, picked);
    DistinctCount(picked);
    forall x | x in picked ensures x in list {
      assert x in Elements(list);
    }
    assert (set x | x in list && x in picked) == Elements(picked);
  }

  // ---------------------------------------------------------------- coverage

  ghost predicate IsAdvertised(node: string, members: set<Peer>, local: map<Peer, set<nat>>)
    requires members <= local.Keys
  {
    exists y, p :: y in members && p in local[y] && node == NodeName(p, y.address)
  }

  /** A listing of all nodes advertised for a version: one per member and local partition. */
  ghost predicate Advertises(nodes: seq<string>, members: set<Peer>, local: map<Peer, set<nat>>)
    requires members <= local.Keys
  {
    && (forall node :: node in nodes ==> IsAdvertised(node, members, local))
    && (forall y, p :: y in members && p in local[y] ==> NodeName(p, y.address) in nodes)
  }

  lemma AdvertisedParse(node: string, members: set<Peer>, local: map<Peer, set<nat>>) returns (y: Peer, p: nat)
    requires members <= local.Keys && IsAdvertised(node, members, local)
    ensures y in members && p in local[y] && '@' in node && ParseNode(node) == (p, y.address)
  {
    y, p :| y in members && p in local[y] && node == NodeName(p, y.address);
    NodeNameRoundTrip(p, y.address);
  }

  lemma AdvertisedWellFormed(nodes: seq<string>, members: set<Peer>, local: map<Peer, set<nat>>)
    requires members <= local.Keys && Advertises(nodes, members, local)
    ensures WellFormed(nodes)
  {
    forall node | node in nodes ensures '@' in node {
      var y, p := AdvertisedParse(node, members, local);
    }
  }

  /** A node's view of the others is exactly what the others have. */
  lemma RemoteIsWhatOthersHave(nodes: seq<string>, members: set<Peer>, local: map<Peer, set<nat>>, me: Peer, p: nat)
    requires Membership(members) && members <= local.Keys && Advertises(nodes, members, local) && me in members
    ensures WellFormed(nodes)
    ensures p in Partitions.RemoteOf(nodes, me.address) <==> exists y :: y in members && y != me && p in local[y]
  {
    hide NodeName, ParseNode, Partitions.RemoteOf;
    AdvertisedWellFormed(nodes, members, local);
    Partitions.RemoteOfMembers(nodes, me.address, p);
    if p in Partitions.RemoteOf(nodes, me.address) {
      var node :| node in nodes && ParseNode(node).0 == p && ParseNode(node).1 != me.address;
      var y, q := AdvertisedParse(node, members, local);
      assert y in members && y != me && p in local[y];
    }
    if exists y :: y in members && y != me && p in local[y] {
      var y :| y in members && y != me && p in local[y];
      assert NodeName(p, y.address) in nodes;
      NodeNameRoundTrip(p, y.address);
    }
  }

  /** The nodes that a member would ask for a partition are exactly the other members that have it, each
      once if the listing has no repetition. */
  lemma RemoteHosts(nodes: seq<string>, members: set<Peer>, local: map<Peer, set<nat>>, me: Peer, p: nat, host: string)
    requires Membership(members) && members <= local.Keys && Advertises(nodes, members, local) && me in members
    ensures WellFormed(nodes)
    ensures var remote := Partitions.RemoteOf(nodes, me.address);
            && (p in remote && host in remote[p] <==> exists y :: y in members && y != me && p in local[y] && y.address == host)
            && (Distinct(nodes) && p in remote ==> Distinct(remote[p]))
  {
    hide NodeName, ParseNode, Partitions.RemoteOf;
    AdvertisedWellFormed(nodes, members, local);
    Partitions.RemoteOfHosts(nodes, me.address, p, host);
    if node :| node in nodes && ParseNode(node) == (p as int, host) && host != me.address {
      var y, q := AdvertisedParse(node, members, local);
    }
    if y :| y in members && y != me && p in local[y] && y.address == host {
      assert NodeName(p, y.address) in nodes;
      NodeNameRoundTrip(p, y.address);
    }
    if Distinct(nodes) {
      ParsedDistinct(nodes, members, local);
      Partitions.HostsDistinct(nodes, me.address, p);
    }
  }

  lemma ParsedDistinct(nodes: seq<string>, members: set<Peer>, local: map<Peer, set<nat>>)
    requires members <= local.Keys && Advertises(nodes, members, local) && WellFormed(nodes) && Distinct(nodes)
    ensures forall i, j :: 0 <= i < j < |nodes| ==> ParseNode(nodes[i]) != ParseNode(nodes[j])
  {
    hide NodeName, ParseNode;
    forall i, j | 0 <= i < j < |nodes| ensures ParseNode(nodes[i]) != ParseNode(nodes[j]) {
      PrintedParse(nodes[i], members, local);
      PrintedParse(nodes[j], members, local);
    }
  }

  lemma PrintedParse(node: string, members: set<Peer>, local: map<Peer, set<nat>>)
    requires members <= local.Keys && IsAdvertised(node, members, local) && '@' in node
    ensures ParseNode(node).0 >= 0 && node == NodeName(ParseNode(node).0, ParseNode(node).1)
  {
    hide NodeName, ParseNode;
    var y, p :| y in members && p in local[y] && node == NodeName(p, y.address);
    NodeNameRoundTrip(p, y.address);
  }

  /** Some member is responsible for each partition. */
  lemma SomeoneSelects(ring: Ring, members: set<Peer>, zkPath: string, total: nat, replication: nat, p: nat) returns (y: Peer)
    requires Membership(members) && RingOk(ring) && replication > 0 && p < total
    ensures y in members && p in SelectedBy(ring, members, zkPath, total, replication, y)
  {
    var shards := Shards(members);
    var x :| x in members;
    assert x.shardID in shards;
    ReplicationExact(ring, shards, zkPath, total, replication, p);
    var who := Replicas(ring, shards, zkPath, total, replication, p);
    assert |shards| > 0;
    assert who != {};
    var s :| s in who;
    y :| y in members && y.shardID == s;
  }

  /** Once every member has built what it selected and has seen what the others advertise, no member
      misses any partition, and its `ready` channel is closed. */
  lemma EveryNodeCovered(ring: Ring, members: set<Peer>, zkPath: string, total: nat, replication: nat,
                         local: map<Peer, set<nat>>, nodes: seq<string>, me: Peer, before: Latch.View)
    requires Membership(members) && RingOk(ring) && replication > 0 && me in members && members <= local.Keys
    requires forall y :: y in members ==> SelectedBy(ring, members, zkPath, total, replication, y) <= local[y]
    requires Advertises(nodes, members, local)
    requires before.num == total && before.local == local[me]
    ensures WellFormed(nodes)
    ensures var v := Latch.UpdateRemote(before, Partitions.RemoteOf(nodes, me.address));
            v.numMissing == 0 && v.readyClosed && Latch.Covered(v)
  {
    AdvertisedWellFormed(nodes, members, local);
    var v := Latch.UpdateRemote(before, Partitions.RemoteOf(nodes, me.address));
    forall p | 0 <= p < total ensures p in v.local || p in v.remote {
      var y := SomeoneSelects(ring, members, zkPath, total, replication, p);
      if y != me {
        RemoteIsWhatOthersHave(nodes, members, local, me, p);
      }
    }
    assert Latch.Covered(v);
    Latch.CoveredIff(v);
  }
}
