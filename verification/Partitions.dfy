/** `partitions.go`: the partitions of one version, as the object that tracks, counts and advertises
    them, with the part of `zk_watcher.go` that records the nodes to keep registered. */
module Partitions {
  import opened Bytes
  import opened ZkNames
  import opened Latch

  class ZkWatcher {
    const prefix: Path
    var ephemeralNodes: set<Path>

    constructor (prefix: Path)
      ensures this.prefix == prefix && ephemeralNodes == {}
    {
      this.prefix, ephemeralNodes := prefix, {};
    }

    method CreateEphemeral(node: Path)
      modifies this
      ensures ephemeralNodes == old(ephemeralNodes) + {prefix + node}
    {
      ephemeralNodes := ephemeralNodes + {prefix + node};
    }

    method RemoveEphemeral(node: Path)
      modifies this
      ensures ephemeralNodes == old(ephemeralNodes) - {prefix + node}
    {
      ephemeralNodes := ephemeralNodes - {prefix + node};
    }
  }

  /** One listed node filed under its partition, unless it is our own. */
  function FileNode(remote: map<int, seq<string>>, node: string, self: string): map<int, seq<string>>
    requires '@' in node
  {
    var (partition, host) := ParseNode(node);
    if host == self then remote
    else remote[partition := (if partition in remote then remote[partition] else []) + [host]]
  }

  /** Who has which partition, according to a listing. */
  function RemoteOf(nodes: seq<string>, self: string): map<int, seq<string>>
    requires WellFormed(nodes)
  {
    if nodes == [] then map[]
    else FileNode(RemoteOf(nodes[..|nodes| - 1], self), nodes[|nodes| - 1], self)
  }

  /** A partition is in the map exactly when the listing has it for another node. */
  lemma {:induction false} RemoteOfMembers(nodes: seq<string>, self: string, p: int)
    requires WellFormed(nodes)
    ensures p in RemoteOf(nodes, self) <==>
            exists node :: node in nodes && ParseNode(node).0 == p && ParseNode(node).1 != self
  {
    if nodes != [] {
      var n := |nodes| - 1;
      RemoteOfMembers(nodes[..n], self, p);
      assert nodes == nodes[..n] + [nodes[n]];
    }
  }

  /** And then exactly those other nodes are recorded for it. */
  lemma {:induction false} RemoteOfHosts(nodes: seq<string>, self: string, p: int, host: string)
    requires WellFormed(nodes)
    ensures p in RemoteOf(nodes, self) && host in RemoteOf(nodes, self)[p] <==>
            exists node :: node in nodes && ParseNode(node) == (p, host) && host != self
  {
    hide ParseNode;
    if nodes != [] {
      var n := |nodes| - 1;
      RemoteOfHosts(nodes[..n], self, p, host);
      assert nodes == nodes[..n] + [nodes[n]];
    }
  }

  /** Each node is recorded once, if the listing names no node twice for a partition. */
  lemma {:induction false} HostsDistinct(nodes: seq<string>, self: string, p: int)
    requires WellFormed(nodes)
    requires forall i, j :: 0 <= i < j < |nodes| ==> ParseNode(nodes[i]) != ParseNode(nodes[j])
    ensures p in RemoteOf(nodes, self) ==> Distinct(RemoteOf(nodes, self)[p])
  {
    hide ParseNode;
    if nodes != [] {
      var n := |nodes| - 1;
      HostsDistinct(nodes[..n], self, p);
      RemoteOfHosts(nodes[..n], self, p, ParseNode(nodes[n]).1);
    }
  }

  /** The node of a local partition. */
  function NodePath(dir: Path, partition: nat, address: string): Path {
    dir + [NodeName(partition, address)]
  }

  function NodesOf(dir: Path, ps: set<nat>, address: string): set<Path> {
    set p | p in ps :: NodePath(dir, p, address)
  }

  /** The registered nodes that lie in a version's directory. */
  function Under(nodes: set<Path>, dir: Path): set<Path> {
    set n | n in nodes && |n| == |dir| + 1 && dir <= n
  }

  /** The registered nodes that do not. */
  function Outside(nodes: set<Path>, dir: Path): set<Path> {
    nodes - Under(nodes, dir)
  }

  /** What leaves the nodes outside one directory alone leaves those of every other version alone. */
  lemma OthersUndisturbed(before: set<Path>, after: set<Path>, dir: Path, other: Path)
    requires Outside(before, dir) == Outside(after, dir) && dir != other
    ensures Under(before, other) == Under(after, other)
  {
    forall n ensures n in Under(before, other) <==> n in Under(after, other) {
      if |n| == |other| + 1 && other <= n {
        assert n[..|n| - 1] == other;
        assert !(|n| == |dir| + 1 && dir <= n);
        assert n in before <==> n in Outside(before, dir);
        assert n in after <==> n in Outside(after, dir);
      }
    }
  }

  class PartitionSet {
    const zk: ZkWatcher
    const clustered: bool
    const address: string
    const zkPath: Path
    const numPartitions: nat
    const selected: set<nat>
    var local: set<nat>
    var remote: map<int, seq<string>>
    var numMissing: nat
    var readyClosed: bool
    var shouldAdvertise: bool
    /** How often the `ready` channel was closed. */
    ghost var closes: nat

    ghost function View(): Latch.View
      reads this
    {
      Latch.View(numPartitions, local, remote, numMissing, readyClosed)
    }

    ghost function Dir(): Path
      reads zk
    {
      zk.prefix + zkPath
    }

    /** The count is exact, the channel was closed at most once, and the nodes registered for this
        version are those of its local partitions while it advertises, and none otherwise. */
    ghost predicate Valid()
      reads this, zk
    {
      && numMissing == |Uncovered(numPartitions, local, remote)|
      && (numMissing == 0 ==> readyClosed)
      && closes == (if readyClosed then 1 else 0)
      && Under(zk.ephemeralNodes, Dir()) == if shouldAdvertise then NodesOf(Dir(), local, address) else {}
    }

    /** `watchPartitions`; `nodes` is the first listing a clustered node gets. */
    constructor (zk: ZkWatcher, clustered: bool, address: string, zkPath: Path, numPartitions: nat, selected: set<nat>, nodes: seq<string>)
      requires clustered ==> WellFormed(nodes)
      requires Under(zk.ephemeralNodes, zk.prefix + zkPath) == {}
      ensures Valid() && this.zk == zk && this.selected == selected && local == {} && !shouldAdvertise
      ensures View() == Fresh(numPartitions, if clustered then RemoteOf(nodes, address) else map[])
    {
      this.zk, this.clustered, this.address, this.zkPath := zk, clustered, address, zkPath;
      this.numPartitions, this.selected := numPartitions, selected;
      local, remote, readyClosed, shouldAdvertise, closes := {}, map[], false, false, 0;
      numMissing := 0;
      new;
      if clustered {
        var _ := ReadRemote(nodes);
      }
      UpdateMissing();
    }

    /** A name without `@` is an index out of range, before anything is assigned. */
    method ReadRemote(nodes: seq<string>) returns (panicked: bool)
      modifies this`remote
      ensures panicked <==> !WellFormed(nodes)
      ensures remote == if panicked then old(remote) else RemoteOf(nodes, address)
    {
      var found: map<int, seq<string>> := map[];
      for i := 0 to |nodes|
        invariant WellFormed(nodes[..i]) && found == RemoteOf(nodes[..i], address) && remote == old(remote)
      {
        if '@' !in nodes[i] {
          return true;
        }
        assert nodes[..i + 1] == nodes[..i] + [nodes[i]];
        assert nodes[..i + 1][..i] == nodes[..i];
        var (partition, host) := ParseNode(nodes[i]);
        if host != address {
          found := found[partition := (if partition in found then found[partition] else []) + [host]];
        }
      }
      assert nodes[..|nodes|] == nodes;
      remote := found;
      return false;
    }

    method UpdateMissing()
      requires closes == if readyClosed then 1 else 0
      modifies this`numMissing, this`readyClosed, this`closes
      ensures View() == Latch.UpdateMissing(old(View()))
      ensures closes == if readyClosed then 1 else 0
    {
      var missing := 0;
      for i := 0 to numPartitions
        invariant missing == |Uncovered(i, local, remote)|
        invariant View() == old(View()) && closes == old(closes)
      {
        UncoveredNext(i, local, remote);
        if i !in local && i !in remote {
          missing := missing + 1;
        }
      }
      numMissing := missing;
      if missing == 0 && !readyClosed {
        readyClosed, closes := true, closes + 1;
      }
    }

    method UpdateLocalPartitions(added: set<nat>)
      requires Valid()
      modifies this`local, this`numMissing, this`readyClosed, this`closes, zk
      ensures Valid() && Outside(zk.ephemeralNodes, Dir()) == old(Outside(zk.ephemeralNodes, Dir()))
      ensures View() == Latch.UpdateLocal(old(View()), added)
    {
      local := local + added;
      UpdateMissing();
      if shouldAdvertise {
        RegisterLocal(old(local));
      }
    }

    method UpdateRemotePartitions(nodes: seq<string>) returns (panicked: bool)
      requires Valid()
      modifies this`remote, this`numMissing, this`readyClosed, this`closes
      ensures Valid()
      ensures panicked <==> clustered && !WellFormed(nodes)
      ensures View() == if clustered && !panicked then Latch.UpdateRemote(old(View()), RemoteOf(nodes, address)) else old(View())
    {
      if !clustered {
        return false;
      }
      panicked := ReadRemote(nodes);
      if !panicked {
        UpdateMissing();
      }
    }

    /** Registers the node of every local partition; those of `known` are registered already. */
    method RegisterLocal(ghost known: set<nat>)
      requires known <= local && Under(zk.ephemeralNodes, Dir()) == NodesOf(Dir(), known, address)
      modifies zk
      ensures Under(zk.ephemeralNodes, Dir()) == NodesOf(Dir(), local, address)
      ensures Outside(zk.ephemeralNodes, Dir()) == old(Outside(zk.ephemeralNodes, Dir()))
    {
      var left := local;
      while left != {}
        invariant left <= local && Outside(zk.ephemeralNodes, Dir()) == old(Outside(zk.ephemeralNodes, Dir()))
        invariant Under(zk.ephemeralNodes, Dir()) == NodesOf(Dir(), known + (local - left), address)
        decreases left
      {
        var partition :| partition in left;
        left := left - {partition};
        ghost var before := zk.ephemeralNodes;
        zk.CreateEphemeral(zkPath + [NodeName(partition, address)]);
        assert zk.prefix + (zkPath + [NodeName(partition, address)]) == NodePath(Dir(), partition, address);
        RegisterOne(before, Dir(), known + (local - left) - {partition}, partition, address, known + (local - left));
      }
    }

    method AdvertisePartitions()
      requires Valid()
      modifies this`shouldAdvertise, zk
      ensures Valid() && shouldAdvertise == (clustered || old(shouldAdvertise))
      ensures Outside(zk.ephemeralNodes, Dir()) == old(Outside(zk.ephemeralNodes, Dir()))
    {
      if !clustered {
        return;
      }
      assert NodesOf(Dir(), {}, address) == {};
      RegisterLocal(if shouldAdvertise then local else {});
      shouldAdvertise := true;
    }

    method UnadvertisePartitions()
      requires Valid()
      modifies this`shouldAdvertise, zk
      ensures Valid() && shouldAdvertise == (!clustered && old(shouldAdvertise))
      ensures Outside(zk.ephemeralNodes, Dir()) == old(Outside(zk.ephemeralNodes, Dir()))
    {
      if !clustered {
        return;
      }
      shouldAdvertise := false;
      var left := local;
      while left != {}
        invariant left <= local && !shouldAdvertise
        invariant Outside(zk.ephemeralNodes, Dir()) == old(Outside(zk.ephemeralNodes, Dir()))
        invariant Under(zk.ephemeralNodes, Dir()) <= NodesOf(Dir(), left, address)
        decreases left
      {
        var partition :| partition in left;
        ghost var before := zk.ephemeralNodes;
        zk.RemoveEphemeral(zkPath + [NodeName(partition, address)]);
        assert zk.prefix + (zkPath + [NodeName(partition, address)]) == NodePath(Dir(), partition, address);
        UnregisterOne(before, Dir(), left, partition, address);
        left := left - {partition};
      }
      assert NodesOf(Dir(), {}, address) == {};
    }

    method Have(partition: nat) returns (have: bool)
      ensures have <==> partition in local
    {
      have := partition in local;
    }

    /** The nodes to ask for a partition. */
    method GetPeers(partition: nat) returns (peers: seq<string>)
      ensures peers == if clustered && partition in remote then remote[partition] else []
    {
      peers := if clustered && partition in remote then remote[partition] else [];
    }

    /** The selected partitions that are not local yet. */
    method Needed() returns (needed: set<nat>)
      ensures needed == selected - local
    {
      needed := {};
      var left := selected;
      while left != {}
        invariant left <= selected && needed == (selected - left) - local
        decreases left
      {
        var partition :| partition in left;
        left := left - {partition};
        if partition !in local {
          needed := needed + {partition};
        }
      }
    }
  }

  lemma UncoveredNext(i: nat, local: set<int>, remote: map<int, seq<string>>)
    ensures |Uncovered(i + 1, local, remote)| == |Uncovered(i, local, remote)| + if i !in local && i !in remote then 1 else 0
  {
    if i !in local && i !in remote {
      assert Uncovered(i + 1, local, remote) == Uncovered(i, local, remote) + {i};
    } else {
      assert Uncovered(i + 1, local, remote) == Uncovered(i, local, remote);
    }
  }

  lemma RegisterOne(nodes: set<Path>, dir: Path, known: set<nat>, p: nat, address: string, after: set<nat>)
    requires after == known + {p}
    requires Under(nodes, dir) == NodesOf(dir, known, address) || Under(nodes, dir) == NodesOf(dir, after, address)
    ensures Under(nodes + {NodePath(dir, p, address)}, dir) == NodesOf(dir, after, address)
    ensures Outside(nodes + {NodePath(dir, p, address)}, dir) == Outside(nodes, dir)
  {
    var n := NodePath(dir, p, address);
    assert dir <= n && |n| == |dir| + 1;
    assert Under(nodes + {n}, dir) == Under(nodes, dir) + {n};
    assert NodesOf(dir, after, address) == NodesOf(dir, known, address) + {n};
  }

  lemma UnregisterOne(nodes: set<Path>, dir: Path, left: set<nat>, p: nat, address: string)
    requires Under(nodes, dir) <= NodesOf(dir, left, address)
    ensures Under(nodes - {NodePath(dir, p, address)}, dir) <= NodesOf(dir, left - {p}, address)
    ensures Outside(nodes - {NodePath(dir, p, address)}, dir) == Outside(nodes, dir)
  {
    var n := NodePath(dir, p, address);
    assert dir <= n && |n| == |dir| + 1;
    forall m | m in Under(nodes - {n}, dir) ensures m in NodesOf(dir, left - {p}, address) {
      assert m in Under(nodes, dir);
      var q :| q in left && m == NodePath(dir, q, address);
    }
  }
}
