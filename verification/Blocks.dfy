/** The value-level specification of the block store (`blocks/block_store.go`, `block_writer.go`,
    `block.go`, `manifest.go`): blocks, the store, the directory it lives in, and its operations.
    A Sparkey file is a byte map in which the last put of a key wins. */
module Blocks {
  import opened Bytes
  import opened Hashcode

  type Data = map<Str, Str>

  /** A block, being written or saved; `data` is the content of its file. */
  datatype Block = Block(
    id: nat,
    partition: nat,
    count: nat,
    minKey: Option<Str>,
    maxKey: Option<Str>,
    data: Data)

  function NewBlock(id: nat, partition: nat): Block {
    Block(id, partition, 0, None, None, map[])
  }

  /** `blockWriter.add`. */
  function Put(b: Block, key: Str, value: Str): Block {
    b.(count := b.count + 1,
       maxKey := if b.maxKey.None? || Less(b.maxKey.value, key) then Some(key) else b.maxKey,
       minKey := if b.minKey.None? || Less(key, b.minKey.value) then Some(key) else b.minKey,
       data := b.data[key := value])
  }

  function Lookup(data: Data, key: Str): Option<Str> {
    if key in data then Some(data[key]) else None
  }

  /** `Block.Get`: keys outside the range of the block are not looked up. */
  function BlockGet(b: Block, key: Str): Option<Str> {
    if b.minKey.Some? && Less(key, b.minKey.value) then None
    else if b.maxKey.Some? && Less(b.maxKey.value, key) then None
    else Lookup(b.data, key)
  }

  datatype Compression = Unset | Snappy | Uncompressed

  datatype BlockManifest = BlockManifest(id: nat, partition: nat, count: nat, minKey: Option<Str>, maxKey: Option<Str>)

  /** The `.manifest` file; None for a JSON field that is absent. */
  datatype Manifest = Manifest(
    version: int,
    blocks: seq<BlockManifest>,
    numPartitions: nat,
    selectedPartitions: Option<seq<nat>>,
    compression: Compression,
    blockSize: nat)

  const MANIFEST_VERSION := 3

  /** The directory of a store. */
  datatype Disk = Disk(files: map<nat, Data>, manifest: Option<Manifest>)

  datatype Store = Store(
    compression: Compression,
    blockSize: nat,
    numPartitions: nat,
    pending: map<nat, Block>,
    blocks: seq<Block>,
    blockMap: map<nat, seq<Block>>)

  function NewStore(numPartitions: nat, compression: Compression, blockSize: nat): Store {
    Store(compression, blockSize, numPartitions, map[], [], map[])
  }

  datatype World = World(store: Store, disk: Disk)

  // ---------------------------------------------------------------- operations

  function BlockFor(s: Store, partition: nat, id: nat): Block {
    if partition in s.pending then s.pending[partition] else NewBlock(id, partition)
  }

  /** `Add`; `id` is the fresh identifier a new block would get. */
  function Add(w: World, key: Str, value: Str, id: nat): World
    requires w.store.numPartitions > 0
  {
    var p := NormalPartition(key, w.store.numPartitions);
    var files := if p in w.store.pending then w.disk.files else w.disk.files[id := map[]];
    World(w.store.(pending := w.store.pending[p := Put(BlockFor(w.store, p, id), key, value)]),
          w.disk.(files := files))
  }

  /** A block filed under its partition, after those already there. */
  function Filed(index: map<nat, seq<Block>>, b: Block): map<nat, seq<Block>> {
    index[b.partition := (if b.partition in index then index[b.partition] else []) + [b]]
  }

  /** One round of the flushing loop of `Save`. */
  function FlushOne(w: World, p: nat): World
    requires p in w.store.pending
  {
    var b := w.store.pending[p];
    World(w.store.(pending := w.store.pending - {p}, blocks := w.store.blocks + [b], blockMap := Filed(w.store.blockMap, b)),
          w.disk.(files := w.disk.files[b.id := b.data]))
  }

  /** An enumeration of the pending partitions, as a Go map range may produce it. */
  ghost predicate Enumerates(order: seq<nat>, keys: set<nat>) {
    && (forall p :: p in order <==> p in keys)
    && (forall i, j :: 0 <= i < j < |order| ==> order[i] != order[j])
  }

  lemma EnumeratesRest(order: seq<nat>, keys: set<nat>)
    requires Enumerates(order, keys) && order != []
    ensures order[0] in keys && Enumerates(order[1..], keys - {order[0]})
  {
  }

  function Flush(w: World, order: seq<nat>): World
    requires Enumerates(order, w.store.pending.Keys)
    decreases |order|
  {
    if order == [] then w
    else
      EnumeratesRest(order, w.store.pending.Keys);
      assert (w.store.pending - {order[0]}).Keys == w.store.pending.Keys - {order[0]};
      Flush(FlushOne(w, order[0]), order[1..])
  }

  function ManifestOfBlock(b: Block): BlockManifest {
    BlockManifest(b.id, b.partition, b.count, b.minKey, b.maxKey)
  }

  function ManifestsOf(blocks: seq<Block>): seq<BlockManifest> {
    seq(|blocks|, i requires 0 <= i < |blocks| => ManifestOfBlock(blocks[i]))
  }

  /** The manifest `Save` writes; it leaves out compression and block size. */
  function ManifestOf(s: Store, selected: seq<nat>): Manifest {
    Manifest(MANIFEST_VERSION, ManifestsOf(s.blocks), s.numPartitions, Some(selected), Unset, 0)
  }

  function Save(w: World, order: seq<nat>, selected: seq<nat>): World
    requires Enumerates(order, w.store.pending.Keys)
  {
    var f := Flush(w, order);
    World(f.store.(pending := map[]), f.disk.(manifest := Some(ManifestOf(f.store, selected))))
  }

  function PendingIds(s: Store): set<nat> {
    set p | p in s.pending :: s.pending[p].id
  }

  /** `Revert`: the files being written are deleted. */
  function Revert(w: World): World {
    World(w.store.(pending := map[]), w.disk.(files := w.disk.files - PendingIds(w.store)))
  }

  // ---------------------------------------------------------------- reloading

  datatype Load = NoManifest | WrongVersion | MissingBlock | Loaded(store: Store, manifest: Manifest)

  function AllUpTo(n: nat): seq<nat> {
    seq(n, i => i)
  }

  /** `readManifest`: old manifests have no compression and no selection. */
  function Defaulted(m: Manifest): Manifest {
    m.(compression := if m.compression == Unset then Snappy else m.compression,
       selectedPartitions := if m.selectedPartitions.None? then Some(AllUpTo(m.numPartitions)) else m.selectedPartitions)
  }

  function LoadBlock(files: map<nat, Data>, m: BlockManifest): Option<Block> {
    if m.id in files then Some(Block(m.id, m.partition, m.count, m.minKey, m.maxKey, files[m.id])) else None
  }

  /** The loop of `NewFromManifest`. */
  function LoadBlocks(s: Store, files: map<nat, Data>, ms: seq<BlockManifest>): Option<Store>
    decreases |ms|
  {
    if ms == [] then Some(s)
    else match LoadBlock(files, ms[0])
         case None => None
         case Some(b) => LoadBlocks(s.(blocks := s.blocks + [b], blockMap := Filed(s.blockMap, b)), files, ms[1..])
  }

  function NewFromManifest(d: Disk): Load {
    if d.manifest.None? then NoManifest
    else if d.manifest.value.version != MANIFEST_VERSION then WrongVersion
    else
      var m := Defaulted(d.manifest.value);
      match LoadBlocks(NewStore(m.numPartitions, m.compression, m.blockSize), d.files, m.blocks)
      case None => MissingBlock
      case Some(s) => Loaded(s, m)
  }

  // ---------------------------------------------------------------- reading

  datatype GetResult = PartitionNotFound | NotFound | Value(value: Str)

  /** The first block of a list that has the key. */
  function FirstHit(bs: seq<Block>, key: Str): Option<Str> {
    if bs == [] then None
    else if BlockGet(bs[0], key).Some? then BlockGet(bs[0], key)
    else FirstHit(bs[1..], key)
  }

  function BlocksAt(s: Store, p: nat): seq<Block> {
    if p in s.blockMap then s.blockMap[p] else []
  }

  /** `Get`: the key's partition first, then its alternate. */
  function Get(s: Store, key: Str): GetResult
    requires s.numPartitions > 0
  {
    var p, q := NormalPartition(key, s.numPartitions), AlternatePartition(key, s.numPartitions);
    if p !in s.blockMap && q !in s.blockMap then PartitionNotFound
    else if FirstHit(BlocksAt(s, p), key).Some? then Value(FirstHit(BlocksAt(s, p), key).value)
    else if p != q && FirstHit(BlocksAt(s, q), key).Some? then Value(FirstHit(BlocksAt(s, q), key).value)
    else NotFound
  }
}
