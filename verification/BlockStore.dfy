/** `blocks/block_store.go` and `block_writer.go` as the objects they are; every method is proved
    against the value-level specification. */
module BlockStores {
  import opened Bytes
  import Hashcode
  import opened Spec = Blocks

  /** The directory of a store on local disk. */
  class Directory {
    var files: map<nat, Data>
    var manifest: Option<Manifest>

    constructor ()
      ensures files == map[] && manifest == None
    {
      files, manifest := map[], None;
    }
  }

  class BlockWriter {
    const id: nat
    const partition: nat
    var minKey: Option<Str>
    var maxKey: Option<Str>
    var count: nat
    var log: Data

    ghost function View(): Block
      reads this
    {
      Block(id, partition, count, minKey, maxKey, log)
    }

    constructor (id: nat, partition: nat)
      ensures View() == NewBlock(id, partition)
    {
      this.id, this.partition := id, partition;
      minKey, maxKey, count, log := None, None, 0, map[];
    }

    method Add(key: Str, value: Str)
      modifies this
      ensures View() == Put(old(View()), key, value)
    {
      count := count + 1;
      if maxKey.None? || Less(maxKey.value, key) {
        maxKey := Some(key);
      }
      if minKey.None? || Less(key, minKey.value) {
        minKey := Some(key);
      }
      log := log[key := value];
    }

    method Save(dir: Directory) returns (b: Block)
      modifies dir`files
      ensures b == View() && dir.files == old(dir.files)[b.id := b.data]
    {
      dir.files := dir.files[id := log];
      b := Block(id, partition, count, minKey, maxKey, log);
    }
  }

  /** Some order in which a range over a map visits its keys. */
  method RangeOrder(keys: set<nat>) returns (order: seq<nat>)
    ensures Enumerates(order, keys)
  {
    order := [];
    var left := keys;
    while left != {}
      invariant left <= keys
      invariant forall p :: p in order <==> p in keys - left
      invariant forall i, j :: 0 <= i < j < |order| ==> order[i] != order[j]
      decreases left
    {
      var p :| p in left;
      assert p !in order;
      order, left := order + [p], left - {p};
    }
  }

  /** The inner loop of `Get`. */
  method SearchBlocks(bs: seq<Block>, key: Str) returns (r: Option<Str>)
    ensures r == FirstHit(bs, key)
  {
    for i := 0 to |bs|
      invariant FirstHit(bs, key) == FirstHit(bs[i..], key)
    {
      r := BlockGet(bs[i], key);
      if r.Some? {
        return;
      }
      assert bs[i..][1..] == bs[i + 1..];
    }
    r := None;
  }

  lemma AddIs(w: World, key: Str, value: Str, id: nat, pending: map<nat, Block>, files: map<nat, Data>)
    requires w.store.numPartitions > 0
    requires var p := Hashcode.NormalPartition(key, w.store.numPartitions);
             var started := w.store.pending[p := BlockFor(w.store, p, id)];
             && pending == started[p := Put(started[p], key, value)]
             && files == if p in w.store.pending then w.disk.files else w.disk.files[id := map[]]
    ensures Spec.Add(w, key, value, id) == World(w.store.(pending := pending), w.disk.(files := files))
  {
    hide Hashcode.NormalPartition, Put, BlockFor;
  }

  lemma FlushStep(w: World, order: seq<nat>)
    requires Enumerates(order, w.store.pending.Keys) && order != []
    ensures order[0] in w.store.pending
    ensures var next := FlushOne(w, order[0]);
            && next.store.pending == w.store.pending - {order[0]}
            && Enumerates(order[1..], next.store.pending.Keys)
            && Flush(w, order) == Flush(next, order[1..])
  {
    EnumeratesRest(order, w.store.pending.Keys);
    assert (w.store.pending - {order[0]}).Keys == w.store.pending.Keys - {order[0]};
  }

  lemma FlushNone(w: World)
    requires Enumerates([], w.store.pending.Keys)
    ensures Flush(w, []) == w
  {
  }

  /** The files of the first blocks deleted. */
  ghost function IdsOf(pending: map<nat, Block>, ps: seq<nat>): set<nat> {
    set p | p in ps && p in pending :: pending[p].id
  }

  lemma NoIds(pending: map<nat, Block>)
    ensures IdsOf(pending, []) == {}
  {
  }

  lemma IdsNext(pending: map<nat, Block>, range: seq<nat>, i: nat)
    requires i < |range| && range[i] in pending
    ensures IdsOf(pending, range[..i + 1]) == IdsOf(pending, range[..i]) + {pending[range[i]].id}
  {
    assert range[..i + 1] == range[..i] + [range[i]];
  }

  lemma AllIds(s: Store, order: seq<nat>)
    requires Enumerates(order, s.pending.Keys)
    ensures IdsOf(s.pending, order) == PendingIds(s)
  {
  }

  class BlockStore {
    const dir: Directory
    const compression: Compression
    const blockSize: nat
    const numPartitions: nat
    var newBlocks: map<nat, BlockWriter>
    var blocks: seq<Block>
    var blockMap: map<nat, seq<Block>>

    ghost predicate Valid()
      reads this
    {
      forall p, q :: p in newBlocks && q in newBlocks && p != q ==> newBlocks[p] != newBlocks[q]
    }

    ghost function Pending(): map<nat, Block>
      reads this, newBlocks.Values
    {
      map p | p in newBlocks :: newBlocks[p].View()
    }

    ghost function View(): World
      reads this, newBlocks.Values, dir
    {
      World(Store(compression, blockSize, numPartitions, Pending(), blocks, blockMap), Disk(dir.files, dir.manifest))
    }

    constructor (dir: Directory, numPartitions: nat, compression: Compression, blockSize: nat)
      ensures Valid() && this.dir == dir && newBlocks == map[]
      ensures View() == World(NewStore(numPartitions, compression, blockSize), Disk(dir.files, dir.manifest))
    {
      this.dir, this.compression, this.blockSize, this.numPartitions := dir, compression, blockSize, numPartitions;
      newBlocks, blocks, blockMap := map[], [], map[];
    }

    /** Starts a block for a partition that has none. */
    method StartWriter(partition: nat, id: nat)
      requires Valid() && partition !in newBlocks
      modifies this`newBlocks, dir`files
      ensures Valid() && fresh(newBlocks.Values - old(newBlocks.Values)) && partition in newBlocks && fresh(newBlocks[partition])
      ensures Pending() == old(Pending())[partition := NewBlock(id, partition)]
      ensures dir.files == old(dir.files)[id := map[]]
    {
      ghost var pending := Pending();
      var created := new BlockWriter(id, partition);
      dir.files := dir.files[id := map[]];
      assert forall p :: p in newBlocks ==> newBlocks[p] != created && newBlocks[p].View() == pending[p];
      newBlocks := newBlocks[partition := created];
    }

    /** Starts a block for the partition unless there is one. */
    method EnsureWriter(partition: nat, id: nat)
      requires Valid()
      modifies this`newBlocks, dir`files
      ensures Valid() && fresh(newBlocks.Values - old(newBlocks.Values)) && partition in newBlocks
      ensures newBlocks[partition] in old(newBlocks.Values) || fresh(newBlocks[partition])
      ensures Pending() == old(Pending())[partition := BlockFor(old(View()).store, partition, id)]
      ensures dir.files == if partition in old(Pending()) then old(dir.files) else old(dir.files)[id := map[]]
    {
      if partition in newBlocks {
        assert Pending() == Pending()[partition := newBlocks[partition].View()];
      } else {
        StartWriter(partition, id);
      }
    }

    method AddToWriter(partition: nat, key: Str, value: Str)
      requires Valid() && partition in newBlocks
      modifies newBlocks[partition]
      ensures Valid() && Pending() == old(Pending())[partition := Put(old(Pending())[partition], key, value)]
    {
      newBlocks[partition].Add(key, value);
    }

    method Add(key: Str, value: Str, id: nat)
      requires Valid() && numPartitions > 0
      modifies this`newBlocks, newBlocks.Values, dir`files
      ensures Valid() && fresh(newBlocks.Values - old(newBlocks.Values))
      ensures View() == Spec.Add(old(View()), key, value, id)
    {
      hide Hashcode.NormalPartition, Put, BlockFor, Spec.Add;
      ghost var world := View();
      var partition, _ := Hashcode.KeyPartition(key, numPartitions);
      EnsureWriter(partition, id);
      AddToWriter(partition, key, value);
      AddIs(world, key, value, id, Pending(), dir.files);
    }

    /** The store is in this state, as far as its lists and its directory are concerned. What is pending
        there is still in the writers, which stay in the map until the end of `Save`. */
    ghost predicate Tracks(world: World)
      reads this, newBlocks.Values, dir
    {
      && world.store == Store(compression, blockSize, numPartitions, world.store.pending, blocks, blockMap)
      && world.disk == Disk(dir.files, dir.manifest)
      && (forall p :: p in world.store.pending ==> p in newBlocks && world.store.pending[p] == newBlocks[p].View())
    }

    /** One round of the flushing loop. */
    method FlushBlock(p: nat, ghost world: World)
      requires Tracks(world) && p in newBlocks && p in world.store.pending
      modifies this`blocks, this`blockMap, dir`files
      ensures Tracks(FlushOne(world, p))
    {
      var saved := newBlocks[p].Save(dir);
      blocks := blocks + [saved];
      blockMap := Filed(blockMap, saved);
    }

    /** The flushing loop; the order of the flushed blocks is that of a range over the map. */
    method FlushAll() returns (ghost order: seq<nat>)
      modifies this`blocks, this`blockMap, dir`files
      ensures Enumerates(order, old(Pending()).Keys)
      ensures Tracks(Flush(old(View()), order))
    {
      hide FlushOne, Flush;
      var range := RangeOrder(newBlocks.Keys);
      order := range;
      ghost var world := View();
      assert range[0..] == range;
      for i := 0 to |range|
        invariant Enumerates(range[i..], world.store.pending.Keys) && Tracks(world)
        invariant Flush(world, range[i..]) == Flush(old(View()), order)
      {
        FlushStep(world, range[i..]);
        assert range[i..][1..] == range[i + 1..];
        FlushBlock(range[i], world);
        world := FlushOne(world, range[i]);
      }
      FlushNone(world);
      assert range[|range|..] == [];
    }

    method Save(selected: seq<nat>) returns (ghost order: seq<nat>)
      requires Valid()
      modifies this`newBlocks, this`blocks, this`blockMap, dir
      ensures Valid() && newBlocks == map[]
      ensures Enumerates(order, old(Pending()).Keys)
      ensures View() == Spec.Save(old(View()), order, selected)
    {
      hide Flush, ManifestsOf;
      order := FlushAll();
      newBlocks := map[];
      dir.manifest := Some(Manifest(MANIFEST_VERSION, ManifestsOf(blocks), numPartitions, Some(selected), Unset, 0));
    }

    /** Deletes the files being written. */
    method DeletePending()
      modifies dir`files
      ensures dir.files == old(dir.files) - PendingIds(View().store)
    {
      hide IdsOf, PendingIds;
      var range := RangeOrder(newBlocks.Keys);
      ghost var pending := Pending();
      NoIds(pending);
      for i := 0 to |range|
        invariant dir.files == old(dir.files) - IdsOf(pending, range[..i])
      {
        var p := range[i];
        IdsNext(pending, range, i);
        assert pending[p].id == newBlocks[p].id;
        dir.files := dir.files - {newBlocks[p].id};
      }
      assert range[..|range|] == range;
      AllIds(View().store, range);
    }

    method Revert()
      requires Valid()
      modifies this`newBlocks, dir`files
      ensures Valid() && newBlocks == map[]
      ensures View() == Spec.Revert(old(View()))
    {
      DeletePending();
      newBlocks := map[];
    }

    method Get(key: Str) returns (r: GetResult)
      requires Valid() && numPartitions > 0
      ensures r == Spec.Get(View().store, key)
    {
      var partition, alternatePartition := Hashcode.KeyPartition(key, numPartitions);
      if partition !in blockMap && alternatePartition !in blockMap {
        return PartitionNotFound;
      }
      var hit := SearchBlocks(if partition in blockMap then blockMap[partition] else [], key);
      if hit.Some? {
        return Value(hit.value);
      }
      if alternatePartition != partition {
        hit := SearchBlocks(if alternatePartition in blockMap then blockMap[alternatePartition] else [], key);
        if hit.Some? {
          return Value(hit.value);
        }
      }
      return NotFound;
    }
  }

  /** `NewFromManifest`; the result says which error, if any. */
  method Open(dir: Directory) returns (store: BlockStore?, outcome: Load)
    ensures outcome == NewFromManifest(Disk(dir.files, dir.manifest))
    ensures outcome.Loaded? <==> store != null
    ensures store != null ==>
              fresh(store) && store.Valid() && store.dir == dir && store.newBlocks == map[] && store.View().store == outcome.store
  {
    if dir.manifest.None? {
      return null, NoManifest;
    }
    if dir.manifest.value.version != MANIFEST_VERSION {
      return null, WrongVersion;
    }
    var m := Defaulted(dir.manifest.value);
    var s := new BlockStore(dir, m.numPartitions, m.compression, m.blockSize);
    for i := 0 to |m.blocks|
      invariant fresh(s) && s.Valid() && s.dir == dir && s.newBlocks == map[]
      invariant LoadBlocks(NewStore(m.numPartitions, m.compression, m.blockSize), dir.files, m.blocks)
             == LoadBlocks(s.View().store, dir.files, m.blocks[i..])
    {
      var block := LoadBlock(dir.files, m.blocks[i]);
      if block.None? {
        return null, MissingBlock;
      }
      assert m.blocks[i..][1..] == m.blocks[i + 1..];
      s.blocks := s.blocks + [block.value];
      s.blockMap := Filed(s.blockMap, block.value);
    }
    return s, Loaded(Store(s.compression, s.blockSize, s.numPartitions, map[], s.blocks, s.blockMap), m);
  }
}
