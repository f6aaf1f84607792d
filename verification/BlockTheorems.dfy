/** The block store refines a plain map, over every run of its operations. */
module BlockTheorems {
  import opened Bytes
  import opened Hashcode
  import opened Blocks

  // ---------------------------------------------------------------- the plain map

  /** The reference: what is saved, and what was added since. */
  datatype Plain = Plain(saved: Data, pending: Data)

  /** Saving keeps what an earlier epoch saved; within an epoch the last put wins. */
  function PlainSave(m: Plain): Plain {
    Plain(m.pending + m.saved, map[])
  }

  function PlainAdd(m: Plain, key: Str, value: Str): Plain {
    m.(pending := m.pending[key := value])
  }

  function PlainDrop(m: Plain): Plain {
    m.(pending := map[])
  }

  /** Some saved key lives in the partition. */
  ghost predicate Occupied(saved: Data, p: nat, total: nat)
    requires total > 0
  {
    exists k :: k in saved && NormalPartition(k, total) == p
  }

  /** The answer of the plain map. */
  ghost function PlainGet(saved: Data, key: Str, total: nat): GetResult
    requires total > 0
  {
    if key in saved then Value(saved[key])
    else if Occupied(saved, NormalPartition(key, total), total) || Occupied(saved, AlternatePartition(key, total), total)
    then NotFound
    else PartitionNotFound
  }

  // ---------------------------------------------------------------- well-formed blocks

  /** The recorded range is exactly the range of the keys, and the block is filed right. */
  ghost predicate BlockOk(b: Block, total: nat)
    requires total > 0
  {
    && b.data != map[]
    && b.minKey.Some? && b.minKey.value in b.data
    && b.maxKey.Some? && b.maxKey.value in b.data
    && (forall k :: k in b.data ==>
          && !Less(k, b.minKey.value) && !Less(b.maxKey.value, k)
          && NormalPartition(k, total) == b.partition)
  }

  lemma FirstPutOk(id: nat, key: Str, value: Str, total: nat)
    requires total > 0
    ensures BlockOk(Put(NewBlock(id, NormalPartition(key, total)), key, value), total)
  {
    Irreflexive(key);
    assert key in Put(NewBlock(id, NormalPartition(key, total)), key, value).data;
  }

  lemma PutKeepsOk(b: Block, key: Str, value: Str, total: nat)
    requires total > 0 && BlockOk(b, total) && NormalPartition(key, total) == b.partition
    ensures BlockOk(Put(b, key, value), total)
  {
    var c := Put(b, key, value);
    Irreflexive(key);
    assert key in c.data;
    forall k | k in c.data
      ensures !Less(k, c.minKey.value) && !Less(c.maxKey.value, k)
    {
      if k != key {
        if Less(k, c.minKey.value) {
          Transitive(k, key, b.minKey.value);
        }
        if Less(c.maxKey.value, k) {
          Transitive(b.maxKey.value, key, k);
        }
      }
    }
  }

  /** Min/max pruning never hides a key. */
  lemma PruningHidesNothing(b: Block, key: Str, total: nat)
    requires total > 0 && BlockOk(b, total)
    ensures BlockGet(b, key) == Lookup(b.data, key)
  {
  }

  // ---------------------------------------------------------------- the index

  /** The blocks of one partition, in the order they were saved. */
  function Of(blocks: seq<Block>, p: nat): seq<Block> {
    if blocks == [] then []
    else
      var n := |blocks| - 1;
      Of(blocks[..n], p) + if blocks[n].partition == p then [blocks[n]] else []
  }

  function Index(blocks: seq<Block>): map<nat, seq<Block>> {
    if blocks == [] then map[]
    else
      var n := |blocks| - 1;
      Filed(Index(blocks[..n]), blocks[n])
  }

  lemma IndexSnoc(blocks: seq<Block>, b: Block)
    ensures Index(blocks + [b]) == Filed(Index(blocks), b)
  {
    assert (blocks + [b])[..|blocks|] == blocks;
  }

  /** Each entry of the index is the subsequence of the block list with that partition. */
  lemma {:induction false} IndexIsSubsequence(blocks: seq<Block>, p: nat)
    ensures p in Index(blocks) <==> Of(blocks, p) != []
    ensures p in Index(blocks) ==> Index(blocks)[p] == Of(blocks, p)
  {
    if blocks != [] {
      IndexIsSubsequence(blocks[..|blocks| - 1], p);
    }
  }

  lemma {:induction false} OfMembers(blocks: seq<Block>, p: nat)
    ensures forall b :: b in Of(blocks, p) <==> b in blocks && b.partition == p
  {
    if blocks != [] {
      var n := |blocks| - 1;
      OfMembers(blocks[..n], p);
      assert blocks == blocks[..n] + [blocks[n]];
    }
  }

  // ---------------------------------------------------------------- lookups

  /** What a block list holds: the earliest block that has a key wins. */
  function Saved(blocks: seq<Block>): Data {
    if blocks == [] then map[]
    else
      var n := |blocks| - 1;
      blocks[n].data + Saved(blocks[..n])
  }

  lemma SavedSnoc(blocks: seq<Block>, b: Block)
    ensures Saved(blocks + [b]) == b.data + Saved(blocks)
  {
    assert (blocks + [b])[..|blocks|] == blocks;
  }

  lemma {:induction false} SavedMembers(blocks: seq<Block>, key: Str)
    ensures key in Saved(blocks) <==> exists b :: b in blocks && key in b.data
  {
    if blocks != [] {
      var n := |blocks| - 1;
      SavedMembers(blocks[..n], key);
      assert blocks == blocks[..n] + [blocks[n]];
    }
  }

  lemma {:induction false} FirstHitSnoc(bs: seq<Block>, b: Block, key: Str)
    ensures FirstHit(bs + [b], key) == if FirstHit(bs, key).Some? then FirstHit(bs, key) else BlockGet(b, key)
  {
    if bs == [] {
      assert bs + [b] == [b];
    } else {
      assert (bs + [b])[1..] == bs[1..] + [b];
      FirstHitSnoc(bs[1..], b, key);
    }
  }

  ghost predicate BlocksOk(blocks: seq<Block>, total: nat)
    requires total > 0
  {
    forall b :: b in blocks ==> BlockOk(b, total)
  }

  /** Searching the blocks of one partition finds what the whole list holds of a key of it, and
      nothing of any other key. */
  lemma {:induction false} PartitionSearch(blocks: seq<Block>, p: nat, key: Str, total: nat)
    requires total > 0 && BlocksOk(blocks, total)
    ensures FirstHit(Of(blocks, p), key) == if NormalPartition(key, total) == p then Lookup(Saved(blocks), key) else None
  {
    if blocks != [] {
      var n := |blocks| - 1;
      var b := blocks[n];
      PartitionSearch(blocks[..n], p, key, total);
      assert b in blocks;
      PruningHidesNothing(b, key, total);
      FirstHitSnoc(Of(blocks[..n], p), b, key);
      assert Of(blocks[..n], p) + [] == Of(blocks[..n], p);
    }
  }

  /** The partition is in the index exactly when it holds a saved key. */
  lemma IndexedIffOccupied(blocks: seq<Block>, p: nat, total: nat)
    requires total > 0 && BlocksOk(blocks, total)
    ensures p in Index(blocks) <==> Occupied(Saved(blocks), p, total)
  {
    IndexIsSubsequence(blocks, p);
    OfMembers(blocks, p);
    if p in Index(blocks) {
      var b := Of(blocks, p)[0];
      assert b in Of(blocks, p);
      var k := b.minKey.value;
      SavedMembers(blocks, k);
    }
    if Occupied(Saved(blocks), p, total) {
      var k :| k in Saved(blocks) && NormalPartition(k, total) == p;
      SavedMembers(blocks, k);
      var b :| b in blocks && k in b.data;
      assert BlockOk(b, total);
    }
  }

  // ---------------------------------------------------------------- refinement

  /** The pending blocks together hold the pending keys. */
  ghost predicate PendingOk(pending: map<nat, Block>, total: nat)
    requires total > 0
  {
    forall p :: p in pending ==> BlockOk(pending[p], total) && pending[p].partition == p
  }

  function PendingLookup(pending: map<nat, Block>, key: Str, total: nat): Option<Str>
    requires total > 0
  {
    var p := NormalPartition(key, total);
    if p in pending then Lookup(pending[p].data, key) else None
  }

  ghost predicate PendingAgrees(pending: map<nat, Block>, m: Data, total: nat)
    requires total > 0
  {
    forall k :: PendingLookup(pending, k, total) == Lookup(m, k)
  }

  /** Every saved block has its file, and no file being written is one of them. */
  ghost predicate FilesOk(w: World) {
    && (forall b :: b in w.store.blocks ==> b.id in w.disk.files && w.disk.files[b.id] == b.data)
    && (forall p :: p in w.store.pending ==> w.store.pending[p].id in w.disk.files)
    && (forall p, b :: p in w.store.pending && b in w.store.blocks ==> w.store.pending[p].id != b.id)
    && (forall p, q :: p in w.store.pending && q in w.store.pending && p != q ==> w.store.pending[p].id != w.store.pending[q].id)
  }

  ghost predicate StoreOk(s: Store, m: Plain) {
    && s.numPartitions > 0
    && PendingOk(s.pending, s.numPartitions)
    && PendingAgrees(s.pending, m.pending, s.numPartitions)
    && BlocksOk(s.blocks, s.numPartitions)
    && s.blockMap == Index(s.blocks)
    && Saved(s.blocks) == m.saved
  }

  /** The manifest on disk describes the saved blocks. */
  ghost predicate Durable(w: World) {
    match w.disk.manifest
    case None => w.store.blocks == []
    case Some(m) => exists selected :: m == ManifestOf(w.store, selected)
  }

  ghost predicate Refines(w: World, m: Plain) {
    StoreOk(w.store, m) && FilesOk(w) && Durable(w)
  }

  /** Reads agree with the plain map; in particular the second pass over the alternate partition
      never changes the answer. */
  lemma GetAgrees(s: Store, m: Plain, key: Str)
    requires StoreOk(s, m)
    ensures Get(s, key) == PlainGet(m.saved, key, s.numPartitions)
  {
    var n := s.numPartitions;
    var p, q := NormalPartition(key, n), AlternatePartition(key, n);
    IndexIsSubsequence(s.blocks, p);
    IndexIsSubsequence(s.blocks, q);
    PartitionSearch(s.blocks, p, key, n);
    PartitionSearch(s.blocks, q, key, n);
    IndexedIffOccupied(s.blocks, p, n);
    IndexedIffOccupied(s.blocks, q, n);
  }

  lemma SecondPassFindsNothing(s: Store, m: Plain, key: Str)
    requires StoreOk(s, m)
    requires NormalPartition(key, s.numPartitions) != AlternatePartition(key, s.numPartitions)
    ensures FirstHit(BlocksAt(s, AlternatePartition(key, s.numPartitions)), key) == None
  {
    var q := AlternatePartition(key, s.numPartitions);
    IndexIsSubsequence(s.blocks, q);
    PartitionSearch(s.blocks, q, key, s.numPartitions);
  }

  // ---------------------------------------------------------------- Add

  lemma AddRefines(w: World, m: Plain, key: Str, value: Str, id: nat)
    requires Refines(w, m) && id !in w.disk.files
    ensures Refines(Add(w, key, value, id), PlainAdd(m, key, value))
  {
    AddStoreOk(w, m, key, value, id);
    AddFilesOk(w, key, value, id);
    var t := Add(w, key, value, id);
    assert forall selected :: ManifestOf(t.store, selected) == ManifestOf(w.store, selected);
    assert Durable(t);
  }

  lemma AddPendingAgrees(pending: map<nat, Block>, m: Data, b: Block, key: Str, value: Str, total: nat)
    requires total > 0 && PendingAgrees(pending, m, total)
    requires var p := NormalPartition(key, total);
             if p in pending then b == pending[p] else b.data == map[]
    ensures PendingAgrees(pending[NormalPartition(key, total) := Put(b, key, value)], m[key := value], total)
  {
    hide NormalPartition;
    var next := pending[NormalPartition(key, total) := Put(b, key, value)];
    forall k ensures PendingLookup(next, k, total) == Lookup(m[key := value], k) {
      assert PendingLookup(pending, k, total) == Lookup(m, k);
    }
  }

  lemma AddStoreOk(w: World, m: Plain, key: Str, value: Str, id: nat)
    requires StoreOk(w.store, m)
    ensures StoreOk(Add(w, key, value, id).store, PlainAdd(m, key, value))
  {
    hide NormalPartition, BlockOk, PendingAgrees, BlocksOk, Index, Saved, Put;
    var n := w.store.numPartitions;
    var p := NormalPartition(key, n);
    if p in w.store.pending {
      PutKeepsOk(w.store.pending[p], key, value, n);
      PutPartition(w.store.pending[p], key, value);
    } else {
      FirstPutOk(id, key, value, n);
      PutPartition(NewBlock(id, p), key, value);
    }
    AddPendingAgrees(w.store.pending, m.pending, BlockFor(w.store, p, id), key, value, n);
  }

  lemma PutPartition(b: Block, key: Str, value: Str)
    ensures Put(b, key, value).partition == b.partition
  {
  }

  lemma AddFilesOk(w: World, key: Str, value: Str, id: nat)
    requires FilesOk(w) && w.store.numPartitions > 0 && id !in w.disk.files
    ensures FilesOk(Add(w, key, value, id))
  {
  }

  // ---------------------------------------------------------------- Save

  /** The keys of one partition move from pending to saved. */
  function PlainFlush(m: Plain, p: nat, total: nat): Plain
    requires total > 0
  {
    var moved := map k | k in m.pending && NormalPartition(k, total) == p :: m.pending[k];
    Plain(moved + m.saved, m.pending - moved.Keys)
  }

  /** The block of a partition holds exactly the pending keys of that partition. */
  lemma PendingBlockData(pending: map<nat, Block>, m: Data, p: nat, total: nat)
    requires total > 0 && PendingOk(pending, total) && PendingAgrees(pending, m, total) && p in pending
    ensures pending[p].data == map k | k in m && NormalPartition(k, total) == p :: m[k]
  {
    hide NormalPartition;
    var moved := map k | k in m && NormalPartition(k, total) == p :: m[k];
    forall k ensures Lookup(pending[p].data, k) == Lookup(moved, k) {
      assert PendingLookup(pending, k, total) == Lookup(m, k);
    }
    SameLookups(pending[p].data, moved);
  }

  lemma FlushPendingAgrees(pending: map<nat, Block>, m: Plain, p: nat, total: nat)
    requires total > 0 && PendingAgrees(pending, m.pending, total)
    ensures PendingAgrees(pending - {p}, PlainFlush(m, p, total).pending, total)
  {
    hide NormalPartition;
    forall k ensures PendingLookup(pending - {p}, k, total) == Lookup(PlainFlush(m, p, total).pending, k) {
      assert PendingLookup(pending, k, total) == Lookup(m.pending, k);
    }
  }

  lemma FlushOneStoreOk(w: World, m: Plain, p: nat)
    requires StoreOk(w.store, m) && p in w.store.pending
    ensures StoreOk(FlushOne(w, p).store, PlainFlush(m, p, w.store.numPartitions))
  {
    hide NormalPartition, BlockOk, PendingAgrees, Index, Saved, Filed;
    var n := w.store.numPartitions;
    var b := w.store.pending[p];
    IndexSnoc(w.store.blocks, b);
    SavedSnoc(w.store.blocks, b);
    PendingBlockData(w.store.pending, m.pending, p, n);
    FlushPendingAgrees(w.store.pending, m, p, n);
  }

  lemma SameLookups(a: Data, b: Data)
    requires forall k :: Lookup(a, k) == Lookup(b, k)
    ensures a == b
  {
    forall k ensures k in a <==> k in b {
      assert Lookup(a, k) == Lookup(b, k);
    }
    forall k | k in a ensures a[k] == b[k] {
      assert Lookup(a, k) == Lookup(b, k);
    }
  }

  lemma FlushOneFilesOk(w: World, p: nat)
    requires FilesOk(w) && p in w.store.pending
    ensures FilesOk(FlushOne(w, p))
  {
  }

  /** Flushing everything leaves nothing pending, and the sum of saved and pending as it was. */
  lemma {:induction false} FlushOk(w: World, m: Plain, order: seq<nat>)
    requires StoreOk(w.store, m) && FilesOk(w) && Enumerates(order, w.store.pending.Keys)
    ensures var f := Flush(w, order);
            StoreOk(f.store, PlainSave(m)) && FilesOk(f) && f.store.pending == map[] && f.store.numPartitions == w.store.numPartitions
    decreases |order|
  {
    hide NormalPartition, BlockOk, Index, Saved, BlocksOk, PendingOk, FilesOk;
    var n := w.store.numPartitions;
    if order == [] {
      NothingPending(w.store.pending, m.pending, n);
      assert m.pending + m.saved == m.saved;
    } else {
      var p := order[0];
      EnumeratesRest(order, w.store.pending.Keys);
      FlushOneStoreOk(w, m, p);
      FlushOneFilesOk(w, p);
      assert (w.store.pending - {p}).Keys == w.store.pending.Keys - {p};
      var g := PlainFlush(m, p, n);
      FlushOk(FlushOne(w, p), g, order[1..]);
      FlushThenSave(m, p, n);
    }
  }

  lemma NothingPending(pending: map<nat, Block>, m: Data, total: nat)
    requires total > 0 && PendingAgrees(pending, m, total) && pending == map[]
    ensures m == map[]
  {
    forall k ensures k !in m {
      assert PendingLookup(pending, k, total) == Lookup(m, k);
    }
  }

  lemma FlushThenSave(m: Plain, p: nat, total: nat)
    requires total > 0
    ensures PlainSave(PlainFlush(m, p, total)) == PlainSave(m)
  {
    hide NormalPartition;
  }

  lemma SaveRefines(w: World, m: Plain, order: seq<nat>, selected: seq<nat>)
    requires Refines(w, m) && Enumerates(order, w.store.pending.Keys)
    ensures Refines(Save(w, order, selected), PlainSave(m))
  {
    FlushOk(w, m, order);
    var t := Save(w, order, selected);
    assert t.disk.manifest == Some(ManifestOf(t.store, selected));
  }

  // ---------------------------------------------------------------- Revert

  lemma RevertRefines(w: World, m: Plain)
    requires Refines(w, m)
    ensures Refines(Revert(w), PlainDrop(m))
  {
    var t := Revert(w);
    assert FilesOk(t);
    assert forall selected :: ManifestOf(t.store, selected) == ManifestOf(w.store, selected);
    assert Durable(t);
    forall k ensures PendingLookup(t.store.pending, k, t.store.numPartitions) == Lookup(map[], k) {
    }
  }

  // ---------------------------------------------------------------- reload

  /** Loading blocks one by one rebuilds the list and its index. */
  lemma {:induction false} LoadBlocksRestores(s: Store, files: map<nat, Data>, blocks: seq<Block>)
    requires s.blockMap == Index(s.blocks)
    requires forall b :: b in blocks ==> b.id in files && files[b.id] == b.data
    ensures LoadBlocks(s, files, ManifestsOf(blocks)) == Some(s.(blocks := s.blocks + blocks, blockMap := Index(s.blocks + blocks)))
    decreases |blocks|
  {
    if blocks == [] {
      assert s.blocks + blocks == s.blocks;
      assert s == s.(blocks := s.blocks, blockMap := Index(s.blocks));
    } else {
      var b := blocks[0];
      assert b in blocks;
      assert LoadBlock(files, ManifestsOf(blocks)[0]) == Some(b);
      assert ManifestsOf(blocks)[1..] == ManifestsOf(blocks[1..]);
      IndexSnoc(s.blocks, b);
      var t := s.(blocks := s.blocks + [b], blockMap := Filed(s.blockMap, b));
      LoadBlocksRestores(t, files, blocks[1..]);
      assert s.blocks + [b] + blocks[1..] == s.blocks + blocks;
    }
  }

  /** Reloading a saved store gives it back without what was pending, except that compression and
      block size are not in the manifest: they come back as Snappy and 0. */
  lemma ReloadRestores(w: World, m: Plain)
    requires Refines(w, m) && w.disk.manifest.Some?
    ensures var l := NewFromManifest(w.disk);
            && l.Loaded?
            && l.store == w.store.(pending := map[], compression := Snappy, blockSize := 0)
            && l.manifest.selectedPartitions == w.disk.manifest.value.selectedPartitions
            && (forall key :: Get(l.store, key) == Get(w.store, key))
  {
    hide Get, Refines;
    ReloadsStore(w, m);
    var l := NewFromManifest(w.disk);
    forall key ensures Get(l.store, key) == Get(w.store, key) {
      SameIndexSameGet(l.store, w.store, key);
    }
  }

  lemma ReloadsStore(w: World, m: Plain)
    requires Refines(w, m) && w.disk.manifest.Some?
    ensures w.store.numPartitions > 0
    ensures var l := NewFromManifest(w.disk);
            && l.Loaded?
            && l.store == w.store.(pending := map[], compression := Snappy, blockSize := 0)
            && l.manifest.selectedPartitions == w.disk.manifest.value.selectedPartitions
  {
    hide Index, Saved, LoadBlocks, PendingAgrees, PendingOk, BlocksOk, ManifestsOf;
    var selected :| w.disk.manifest.value == ManifestOf(w.store, selected);
    IndexOfNone();
    LoadBlocksRestores(NewStore(w.store.numPartitions, Snappy, 0), w.disk.files, w.store.blocks);
    assert [] + w.store.blocks == w.store.blocks;
  }

  lemma IndexOfNone()
    ensures Index([]) == map[]
  {
  }

  lemma SameIndexSameGet(s: Store, t: Store, key: Str)
    requires s.numPartitions == t.numPartitions > 0 && s.blockMap == t.blockMap
    ensures Get(s, key) == Get(t, key)
  {
    hide NormalPartition, AlternatePartition, FirstHit;
  }

  /** The round trip is the identity exactly for stores with nothing pending, Snappy and block size 0. */
  lemma RoundTripIff(w: World, m: Plain)
    requires Refines(w, m) && w.disk.manifest.Some?
    ensures NewFromManifest(w.disk).Loaded?
    ensures NewFromManifest(w.disk).store == w.store
       <==> w.store.pending == map[] && w.store.compression == Snappy && w.store.blockSize == 0
  {
    ReloadRestores(w, m);
  }

  /** A restart of the process: `NewFromManifest`, or a new store if there is nothing to load. */
  function Restart(w: World, compression: Compression, blockSize: nat): World {
    match NewFromManifest(w.disk)
    case Loaded(s, _) => World(s, w.disk)
    case _ => World(NewStore(w.store.numPartitions, compression, blockSize), w.disk)
  }

  lemma RestartRefines(w: World, m: Plain, compression: Compression, blockSize: nat)
    requires Refines(w, m)
    ensures Refines(Restart(w, compression, blockSize), PlainDrop(m))
  {
    var t := Restart(w, compression, blockSize);
    if w.disk.manifest.Some? {
      ReloadRestores(w, m);
      var selected :| w.disk.manifest.value == ManifestOf(w.store, selected);
      assert w.disk.manifest.value == ManifestOf(t.store, selected);
    }
    forall k ensures PendingLookup(t.store.pending, k, t.store.numPartitions) == Lookup(map[], k) {
    }
    assert FilesOk(t);
  }

  // ---------------------------------------------------------------- any manifest

  /** Every block that the manifest lists has its file. */
  predicate AllThere(files: map<nat, Data>, ms: seq<BlockManifest>) {
    forall i :: 0 <= i < |ms| ==> ms[i].id in files
  }

  /** The blocks that the manifest lists. */
  function Listed(files: map<nat, Data>, ms: seq<BlockManifest>): seq<Block>
    requires AllThere(files, ms)
  {
    seq(|ms|, i requires 0 <= i < |ms| =>
      Block(ms[i].id, ms[i].partition, ms[i].count, ms[i].minKey, ms[i].maxKey, files[ms[i].id]))
  }

  lemma {:induction false} LoadFailsIff(s: Store, files: map<nat, Data>, ms: seq<BlockManifest>)
    ensures LoadBlocks(s, files, ms).None? <==> !AllThere(files, ms)
    decreases |ms|
  {
    if ms != [] {
      assert ms == [ms[0]] + ms[1..];
      var b := LoadBlock(files, ms[0]);
      if b.Some? {
        LoadFailsIff(s.(blocks := s.blocks + [b.value], blockMap := Filed(s.blockMap, b.value)), files, ms[1..]);
        assert AllThere(files, ms) <==> AllThere(files, ms[1..]);
      }
    }
  }

  lemma LoadsListed(s: Store, files: map<nat, Data>, ms: seq<BlockManifest>)
    requires AllThere(files, ms) && s.blocks == [] && s.blockMap == map[]
    ensures LoadBlocks(s, files, ms) == Some(s.(blocks := Listed(files, ms), blockMap := Index(Listed(files, ms))))
  {
    hide Index, LoadBlocks;
    var blocks := Listed(files, ms);
    assert ManifestsOf(blocks) == ms;
    IndexOfNone();
    LoadBlocksRestores(s, files, blocks);
    assert [] + blocks == blocks;
  }

  /** For every directory, whoever wrote it: which error loading gives, and what is loaded otherwise; a
      manifest without a selection stands for all partitions, one without compression for Snappy. */
  lemma LoadOutcome(d: Disk)
    ensures NewFromManifest(d).NoManifest? <==> d.manifest.None?
    ensures NewFromManifest(d).WrongVersion? <==> d.manifest.Some? && d.manifest.value.version != 3
    ensures NewFromManifest(d).MissingBlock? <==>
            d.manifest.Some? && d.manifest.value.version == 3 && !AllThere(d.files, d.manifest.value.blocks)
    ensures NewFromManifest(d).Loaded? ==>
              var m, l := d.manifest.value, NewFromManifest(d);
              && AllThere(d.files, m.blocks)
              && l.store.blocks == Listed(d.files, m.blocks) && l.store.blockMap == Index(l.store.blocks)
              && l.store.numPartitions == m.numPartitions && l.store.blockSize == m.blockSize && l.store.pending == map[]
              && l.store.compression == (if m.compression == Unset then Snappy else m.compression)
              && l.manifest.selectedPartitions.Some?
              && (forall p: nat :: p in l.manifest.selectedPartitions.value <==>
                    if m.selectedPartitions.Some? then p in m.selectedPartitions.value else p < m.numPartitions)
  {
    hide Index, LoadBlocks, Listed, AllThere;
    if d.manifest.Some? {
      var m := Defaulted(d.manifest.value);
      var s := NewStore(m.numPartitions, m.compression, m.blockSize);
      LoadFailsIff(s, d.files, m.blocks);
      if AllThere(d.files, m.blocks) {
        LoadsListed(s, d.files, m.blocks);
      }
      AllUpToMembers(m.numPartitions);
      assert NewFromManifest(d).Loaded? ==> NewFromManifest(d).manifest == m;
    }
  }

  lemma AllUpToMembers(n: nat)
    ensures forall p: nat :: p in AllUpTo(n) <==> p < n
  {
    forall p: nat | p < n ensures p in AllUpTo(n) {
      assert AllUpTo(n)[p] == p;
    }
  }

  /** A directory that cannot be loaded leaves the new process with an empty store. */
  lemma RestartWithoutManifest(w: World, compression: Compression, blockSize: nat, key: Str)
    requires w.store.numPartitions > 0 && !NewFromManifest(w.disk).Loaded?
    ensures var t := Restart(w, compression, blockSize);
            && t.disk == w.disk && t.store.numPartitions == w.store.numPartitions
            && t.store.compression == compression && t.store.blockSize == blockSize
            && Get(t.store, key) == PartitionNotFound
  {
    hide NewFromManifest, NormalPartition, AlternatePartition;
  }

  // ---------------------------------------------------------------- runs

  datatype Op =
    | DoAdd(key: Str, value: Str, id: nat)
    | DoSave(order: seq<nat>, selected: seq<nat>)
    | DoRevert
    | DoRestart(compression: Compression, blockSize: nat)

  ghost predicate Allowed(w: World, op: Op) {
    && w.store.numPartitions > 0
    && match op
       case DoAdd(_, _, id) => id !in w.disk.files
       case DoSave(order, _) => Enumerates(order, w.store.pending.Keys)
       case _ => true
  }

  function Apply(w: World, op: Op): World
    requires Allowed(w, op)
  {
    match op
    case DoAdd(k, v, id) => Add(w, k, v, id)
    case DoSave(order, selected) => Save(w, order, selected)
    case DoRevert => Revert(w)
    case DoRestart(c, n) => Restart(w, c, n)
  }

  function PlainApply(m: Plain, op: Op): Plain {
    match op
    case DoAdd(k, v, _) => PlainAdd(m, k, v)
    case DoSave(_, _) => PlainSave(m)
    case DoRevert => PlainDrop(m)
    case DoRestart(_, _) => PlainDrop(m)
  }

  lemma ApplyRefines(w: World, m: Plain, op: Op)
    requires Refines(w, m) && Allowed(w, op)
    ensures Refines(Apply(w, op), PlainApply(m, op))
    ensures Apply(w, op).store.numPartitions == w.store.numPartitions
  {
    match op
    case DoAdd(k, v, id) => AddRefines(w, m, k, v, id);
    case DoSave(order, selected) =>
      SaveRefines(w, m, order, selected);
      FlushOk(w, m, order);
    case DoRevert => RevertRefines(w, m);
    case DoRestart(c, n) =>
      RestartRefines(w, m, c, n);
      if w.disk.manifest.Some? {
        ReloadRestores(w, m);
      }
  }

  ghost predicate AllAllowed(w: World, ops: seq<Op>)
    decreases |ops|
  {
    ops == [] || (Allowed(w, ops[0]) && AllAllowed(Apply(w, ops[0]), ops[1..]))
  }

  function ApplyAll(w: World, ops: seq<Op>): World
    requires AllAllowed(w, ops)
    decreases |ops|
  {
    if ops == [] then w else ApplyAll(Apply(w, ops[0]), ops[1..])
  }

  function PlainApplyAll(m: Plain, ops: seq<Op>): Plain
    decreases |ops|
  {
    if ops == [] then m else PlainApplyAll(PlainApply(m, ops[0]), ops[1..])
  }

  lemma {:induction false} ApplyAllRefines(w: World, m: Plain, ops: seq<Op>)
    requires Refines(w, m) && AllAllowed(w, ops)
    ensures Refines(ApplyAll(w, ops), PlainApplyAll(m, ops))
    ensures ApplyAll(w, ops).store.numPartitions == w.store.numPartitions
    decreases |ops|
  {
    if ops != [] {
      ApplyRefines(w, m, ops[0]);
      ApplyAllRefines(Apply(w, ops[0]), PlainApply(m, ops[0]), ops[1..]);
    }
  }

  /** For every run of Add, Save, Revert and restart from an empty directory, and every key, `Get`
      answers as the plain map does. */
  lemma RunAgreesWithPlainMap(total: nat, compression: Compression, blockSize: nat, ops: seq<Op>, key: Str)
    requires total > 0
    requires AllAllowed(World(NewStore(total, compression, blockSize), Disk(map[], None)), ops)
    ensures var w := ApplyAll(World(NewStore(total, compression, blockSize), Disk(map[], None)), ops);
            && w.store.numPartitions == total
            && Get(w.store, key) == PlainGet(PlainApplyAll(Plain(map[], map[]), ops).saved, key, total)
  {
    var w, m := World(NewStore(total, compression, blockSize), Disk(map[], None)), Plain(map[], map[]);
    assert Refines(w, m);
    ApplyAllRefines(w, m, ops);
    GetAgrees(ApplyAll(w, ops).store, PlainApplyAll(m, ops), key);
  }
}
