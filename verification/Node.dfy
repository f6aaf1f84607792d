/** One node's copy of a version over its whole life: build attempts that succeed or fail and are
    reverted, retries, and restarts from the manifest (`build.go`, `version.go`, `serve.go`). */
module Node {
  import opened Bytes
  import opened Hashcode
  import opened Blocks
  import opened BlockTheorems
  import opened Ingest

  /** `plain` is the plain map the store stands for and `loads` what each successful build loaded; no
      event reads them. */
  datatype Node = Node(world: World, plain: BlockTheorems.Plain, loads: set<set<nat>>, selected: set<nat>, local: set<nat>, built: bool)

  datatype Event =
    // a build that fails after adding the first `adds` pairs, and is reverted
    | BuildFails(adds: nat, id: nat)
    | BuildSucceeds(id: nat, order: seq<nat>, manifestOrder: seq<nat>)
    // a new process, which may be responsible for other partitions
    | Restarted(selection: set<nat>, compression: Compression, blockSize: nat)
    // the same after a process that ended while loading, without reverting
    | Killed(adds: nat, id: nat, selection: set<nat>, compression: Compression, blockSize: nat)

  /** Identifiers from `id` on name no file yet. */
  ghost predicate FreshFrom(d: Disk, id: nat) {
    forall f :: f in d.files ==> f < id
  }

  function Needed(n: Node): set<nat> {
    n.selected - n.local
  }

  /** What a build of the missing partitions adds, in order. */
  function BuildScan(n: Node, files: seq<seq<Record>>): Scanned
    requires files != []
  {
    ScanFiles(files, Needed(n), |files|)
  }

  ghost predicate Enabled(n: Node, files: seq<seq<Record>>, e: Event)
    requires files != []
  {
    && n.world.store.numPartitions == |files|
    && match e
       case BuildFails(adds, id) =>
         !n.built && Needed(n) != {} && adds <= |BuildScan(n, files).added| && FreshFrom(n.world.disk, id)
       case BuildSucceeds(id, order, manifestOrder) =>
         && !n.built && FreshFrom(n.world.disk, id)
         && (Needed(n) != {} ==>
               && BuildScan(n, files).end == Finished
               && Enumerates(order, AddAll(n.world, BuildScan(n, files).added, id).store.pending.Keys)
               && Enumerates(manifestOrder, n.selected))
       case Restarted(_, _, _) => true
       case Killed(adds, id, _, _, _) =>
         !n.built && Needed(n) != {} && adds <= |BuildScan(n, files).added| && FreshFrom(n.world.disk, id)
  }

  function PlainAddAll(m: BlockTheorems.Plain, pairs: seq<Pair>): BlockTheorems.Plain
    decreases |pairs|
  {
    if pairs == [] then m else PlainAddAll(PlainAdd(m, pairs[0].0, pairs[0].1), pairs[1..])
  }

  function AsSet(s: seq<nat>): set<nat> {
    set p | p in s
  }

  /** The partitions that a new process takes for local, after `initBlockStore`. */
  function Have(d: Disk): set<nat> {
    match NewFromManifest(d)
    case Loaded(_, m) => if m.selectedPartitions.Some? then AsSet(m.selectedPartitions.value) else {}
    case _ => {}
  }

  function Reopened(n: Node, w: World, m: BlockTheorems.Plain, selection: set<nat>, compression: Compression, blockSize: nat): Node {
    n.(world := Restart(w, compression, blockSize), plain := PlainDrop(m),
       selected := selection, local := Have(w.disk), built := false)
  }

  function After(n: Node, files: seq<seq<Record>>, e: Event): Node
    requires files != [] && Enabled(n, files, e)
  {
    match e
    case BuildFails(adds, id) =>
      var pairs := BuildScan(n, files).added[..adds];
      n.(world := Revert(AddAll(n.world, pairs, id)), plain := PlainDrop(PlainAddAll(n.plain, pairs)))
    case BuildSucceeds(id, order, manifestOrder) =>
      if Needed(n) == {} then n.(built := true)
      else
        var pairs := BuildScan(n, files).added;
        n.(world := Save(AddAll(n.world, pairs, id), order, manifestOrder),
           plain := PlainSave(PlainAddAll(n.plain, pairs)),
           loads := n.loads + {Needed(n)}, local := n.local + Needed(n), built := true)
    case Restarted(selection, compression, blockSize) =>
      Reopened(n, n.world, n.plain, selection, compression, blockSize)
    case Killed(adds, id, selection, compression, blockSize) =>
      var pairs := BuildScan(n, files).added[..adds];
      Reopened(n, AddAll(n.world, pairs, id), PlainAddAll(n.plain, pairs), selection, compression, blockSize)
  }

  // ---------------------------------------------------------------- the invariant

  /** Everything saved comes from the dataset. */
  ghost predicate Sound(saved: Data, files: seq<seq<Record>>) {
    forall k :: k in saved ==> InDataset(files, k, saved[k])
  }

  /** Some build added the key. */
  ghost predicate AddedBy(files: seq<seq<Record>>, key: Str, loads: set<set<nat>>)
    requires files != []
  {
    exists b :: b in loads && AddedFrom(files, key, b, |files|)
  }

  /** The saved keys are exactly those that some build added. */
  ghost predicate Exact(saved: Data, files: seq<seq<Record>>, loads: set<set<nat>>)
    requires files != []
  {
    forall k :: k in saved <==> AddedBy(files, k, loads)
  }

  /** All partitions that were ever loaded. */
  function LoadedBy(loads: set<set<nat>>): set<nat> {
    set b, p | b in loads && p in b :: p
  }

  function Loaded(n: Node): set<nat> {
    LoadedBy(n.loads)
  }

  ghost predicate NodeOk(n: Node, files: seq<seq<Record>>)
    requires files != []
  {
    && n.world.store.numPartitions == |files|
    && Refines(n.world, n.plain)
    && Sound(n.plain.saved, files)
    && Exact(n.plain.saved, files, n.loads)
    && (forall b :: b in n.loads ==> ScanFiles(files, b, |files|).end == Finished)
    && n.local <= Loaded(n)
    && n.plain.pending == map[]
    && (n.world.disk.manifest.Some? ==>
          && n.world.disk.manifest.value.selectedPartitions.Some?
          && AsSet(n.world.disk.manifest.value.selectedPartitions.value) <= Loaded(n))
  }

  // ---------------------------------------------------------------- adding many pairs

  lemma {:induction false} AddAllRefines(w: World, m: BlockTheorems.Plain, pairs: seq<Pair>, id: nat)
    requires Refines(w, m) && FreshFrom(w.disk, id)
    ensures Refines(AddAll(w, pairs, id), PlainAddAll(m, pairs))
    ensures var t := AddAll(w, pairs, id);
            t.store.numPartitions == w.store.numPartitions && t.disk.manifest == w.disk.manifest
    decreases |pairs|
  {
    hide NormalPartition, Refines;
    if pairs != [] {
      assert w.store.numPartitions > 0 by { RefinesPositive(w, m); }
      AddRefines(w, m, pairs[0].0, pairs[0].1, id);
      AddAllRefines(Add(w, pairs[0].0, pairs[0].1, id), PlainAdd(m, pairs[0].0, pairs[0].1), pairs[1..], id + 1);
    }
  }

  lemma RefinesPositive(w: World, m: BlockTheorems.Plain)
    requires Refines(w, m)
    ensures w.store.numPartitions > 0
  {
  }

  /** Adding touches only what is pending, which ends up holding some value of each added key. */
  lemma {:induction false} PlainAddAllKeys(m: BlockTheorems.Plain, pairs: seq<Pair>)
    ensures PlainAddAll(m, pairs).saved == m.saved
    ensures forall k :: k in PlainAddAll(m, pairs).pending <==> k in m.pending || Mentions(pairs, k)
    ensures forall k :: k in PlainAddAll(m, pairs).pending ==>
              (k, PlainAddAll(m, pairs).pending[k]) in pairs || (k in m.pending && PlainAddAll(m, pairs).pending[k] == m.pending[k])
    decreases |pairs|
  {
    if pairs != [] {
      var p := pairs[0];
      PlainAddAllKeys(PlainAdd(m, p.0, p.1), pairs[1..]);
      assert pairs == [p] + pairs[1..];
      assert (p.0, p.1) in pairs;
      forall k ensures Mentions(pairs, k) <==> k == p.0 || Mentions(pairs[1..], k) {
        if Mentions(pairs[1..], k) {
          var v :| (k, v) in pairs[1..];
          assert (k, v) in pairs;
        }
      }
    }
  }

  // ---------------------------------------------------------------- preservation

  /** What was added to a store with nothing pending can be taken back. */
  ghost predicate Undoable(w: World, t: World, id: nat) {
    && t.store == w.store.(pending := t.store.pending) && t.disk.manifest == w.disk.manifest
    && t.disk.files.Keys == w.disk.files.Keys + PendingIds(t.store) && w.disk.files.Keys !! PendingIds(t.store)
    && (forall f :: f in w.disk.files ==> t.disk.files[f] == w.disk.files[f])
    && FreshFrom(t.disk, id)
  }

  lemma AddUndoable(w: World, t: World, key: Str, value: Str, id: nat)
    requires Undoable(w, t, id) && t.store.numPartitions > 0
    ensures Undoable(w, Add(t, key, value, id), id + 1)
  {
    hide NormalPartition, Less;
    var p := NormalPartition(key, t.store.numPartitions);
    var u := Add(t, key, value, id);
    assert PendingIds(u.store) == PendingIds(t.store) + {u.store.pending[p].id} by {
      forall d ensures d in PendingIds(u.store) <==> d in PendingIds(t.store) || d == u.store.pending[p].id {
        if q :| q in t.store.pending && t.store.pending[q].id == d {
          assert u.store.pending[q].id == d;
        }
      }
    }
  }

  lemma {:induction false} AddAllUndoable(w: World, t: World, pairs: seq<Pair>, id: nat)
    requires Undoable(w, t, id) && t.store.numPartitions > 0
    ensures Undoable(w, AddAll(t, pairs, id), id + |pairs|)
    decreases |pairs|
  {
    hide Undoable;
    if pairs != [] {
      AddUndoable(w, t, pairs[0].0, pairs[0].1, id);
      AddKeepsPartitions(t, pairs[0].0, pairs[0].1, id);
      AddAllUndoable(w, Add(t, pairs[0].0, pairs[0].1, id), pairs[1..], id + 1);
    }
  }

  lemma AddKeepsPartitions(w: World, key: Str, value: Str, id: nat)
    requires w.store.numPartitions > 0
    ensures Add(w, key, value, id).store.numPartitions == w.store.numPartitions
  {
  }

  /** A revert undoes all adds since the last save, in the store and in its directory. */
  lemma RevertUndoes(w: World, pairs: seq<Pair>, id: nat)
    requires w.store.numPartitions > 0 && w.store.pending == map[] && FreshFrom(w.disk, id)
    ensures Revert(AddAll(w, pairs, id)) == w
  {
    hide AddAll;
    assert PendingIds(w.store) == {};
    AddAllUndoable(w, w, pairs, id);
    var t := AddAll(w, pairs, id);
    assert t.disk.files - PendingIds(t.store) == w.disk.files;
  }

  /** With nothing pending in the plain map, no block is being written. */
  lemma NoBlockPending(w: World, m: BlockTheorems.Plain)
    requires Refines(w, m) && m.pending == map[]
    ensures w.store.pending == map[] && w.store.numPartitions > 0
  {
    forall p | p in w.store.pending ensures false {
      PendingBlockData(w.store.pending, m.pending, p, w.store.numPartitions);
    }
  }

  /** A failed build leaves the node exactly as it was. */
  lemma FailureKeeps(n: Node, files: seq<seq<Record>>, e: Event)
    requires files != [] && NodeOk(n, files) && Enabled(n, files, e) && e.BuildFails?
    ensures After(n, files, e) == n
  {
    hide Refines, ScanFiles, Sound, Exact;
    var pairs := BuildScan(n, files).added[..e.adds];
    NoBlockPending(n.world, n.plain);
    RevertUndoes(n.world, pairs, e.id);
    PlainAddAllKeys(n.plain, pairs);
  }

  /** What a successful build saves comes from the dataset. */
  lemma SavedStaysSound(n: Node, files: seq<seq<Record>>)
    requires files != [] && Sound(n.plain.saved, files) && n.plain.pending == map[]
    ensures Sound(PlainSave(PlainAddAll(n.plain, BuildScan(n, files).added)).saved, files)
  {
    hide ScanFiles;
    var pairs := BuildScan(n, files).added;
    var m := PlainAddAll(n.plain, pairs);
    PlainAddAllKeys(n.plain, pairs);
    var saved := PlainSave(m).saved;
    forall k | k in saved ensures InDataset(files, k, saved[k]) {
      if k !in n.plain.saved {
        ScanFilesSound(files, Needed(n), |files|, k, saved[k]);
      }
    }
  }

  /** And it adds exactly the keys that this build added. */
  lemma SavedStaysExact(n: Node, files: seq<seq<Record>>)
    requires files != [] && Exact(n.plain.saved, files, n.loads) && BuildScan(n, files).end == Finished && n.plain.pending == map[]
    ensures Exact(PlainSave(PlainAddAll(n.plain, BuildScan(n, files).added)).saved, files, n.loads + {Needed(n)})
  {
    hide ScanFiles, NormalPartition, AlternatePartition, AddedFrom, Mentions;
    var pairs := BuildScan(n, files).added;
    PlainAddAllKeys(n.plain, pairs);
    var saved := PlainSave(PlainAddAll(n.plain, pairs)).saved;
    forall k ensures k in saved <==> AddedBy(files, k, n.loads + {Needed(n)}) {
      ScanFilesAddExactly(files, Needed(n), |files|, k);
      AddedByNext(files, k, n.loads, Needed(n));
    }
  }

  lemma AddedByNext(files: seq<seq<Record>>, key: Str, loads: set<set<nat>>, b: set<nat>)
    requires files != []
    ensures AddedBy(files, key, loads + {b}) <==> AddedBy(files, key, loads) || AddedFrom(files, key, b, |files|)
  {
    hide AddedFrom;
    if c :| c in loads && AddedFrom(files, key, c, |files|) {
      assert c in loads + {b};
    }
    if AddedFrom(files, key, b, |files|) {
      assert b in loads + {b};
    }
  }

  lemma LoadedNext(loads: set<set<nat>>, b: set<nat>)
    ensures LoadedBy(loads + {b}) == LoadedBy(loads) + b
  {
    forall p | p in LoadedBy(loads) + b ensures p in LoadedBy(loads + {b}) {
      if p in b {
        assert b in loads + {b};
      } else {
        var c :| c in loads && p in c;
        assert c in loads + {b};
      }
    }
  }

  lemma SuccessKeeps(n: Node, files: seq<seq<Record>>, e: Event)
    requires files != [] && NodeOk(n, files) && Enabled(n, files, e) && e.BuildSucceeds?
    ensures NodeOk(After(n, files, e), files)
    ensures After(n, files, e).selected <= After(n, files, e).local
  {
    hide Refines, ScanFiles, Sound, Exact, LoadedBy;
    assert forall p :: p in n.selected && p !in n.local ==> p in Needed(n);
    if Needed(n) != {} {
      var pairs := BuildScan(n, files).added;
      var w, m := AddAll(n.world, pairs, e.id), PlainAddAll(n.plain, pairs);
      AddAllRefines(n.world, n.plain, pairs, e.id);
      SaveRefines(w, m, e.order, e.manifestOrder);
      SaveManifest(w, m, e.order, e.manifestOrder);
      SavedStaysSound(n, files);
      SavedStaysExact(n, files);
      LoadedNext(n.loads, Needed(n));
      assert AsSet(e.manifestOrder) == n.selected;
    }
  }

  lemma SaveManifest(w: World, m: BlockTheorems.Plain, order: seq<nat>, selected: seq<nat>)
    requires Refines(w, m) && Enumerates(order, w.store.pending.Keys)
    ensures var t := Save(w, order, selected);
            && t.store.numPartitions == w.store.numPartitions
            && t.disk.manifest.Some? && t.disk.manifest.value.selectedPartitions == Some(selected)
  {
    FlushOk(w, m, order);
  }

  /** Reopening a directory, whatever the process before left unsaved there. */
  lemma ReopenedOk(n: Node, files: seq<seq<Record>>, w: World, m: BlockTheorems.Plain,
                   selection: set<nat>, compression: Compression, blockSize: nat)
    requires files != [] && NodeOk(n, files)
    requires Refines(w, m) && m.saved == n.plain.saved
    requires w.store.numPartitions == n.world.store.numPartitions && w.disk.manifest == n.world.disk.manifest
    ensures NodeOk(Reopened(n, w, m, selection, compression, blockSize), files)
  {
    hide Refines, Sound, Exact, NewFromManifest, ScanFiles, LoadedBy;
    RestartRefines(w, m, compression, blockSize);
    if w.disk.manifest.Some? {
      ReloadRestores(w, m);
    } else {
      NothingToLoad(w.disk);
    }
  }

  lemma RestartKeeps(n: Node, files: seq<seq<Record>>, e: Event)
    requires files != [] && NodeOk(n, files) && Enabled(n, files, e) && (e.Restarted? || e.Killed?)
    ensures NodeOk(After(n, files, e), files)
  {
    hide NodeOk, ScanFiles, Reopened;
    NodeOkRefines(n, files);
    if e.Killed? {
      var pairs := BuildScan(n, files).added[..e.adds];
      AddAllRefines(n.world, n.plain, pairs, e.id);
      PlainAddAllKeys(n.plain, pairs);
      ReopenedOk(n, files, AddAll(n.world, pairs, e.id), PlainAddAll(n.plain, pairs), e.selection, e.compression, e.blockSize);
    } else {
      ReopenedOk(n, files, n.world, n.plain, e.selection, e.compression, e.blockSize);
    }
  }

  lemma NodeOkRefines(n: Node, files: seq<seq<Record>>)
    requires files != [] && NodeOk(n, files)
    ensures Refines(n.world, n.plain)
  {
  }

  lemma NothingToLoad(d: Disk)
    requires d.manifest.None?
    ensures NewFromManifest(d) == NoManifest
  {
  }

  // ---------------------------------------------------------------- runs

  ghost predicate FreshNode(n: Node, files: seq<seq<Record>>)
    requires files != []
  {
    exists c, b :: n.world == World(NewStore(|files|, c, b), Disk(map[], None))
                && n.plain == BlockTheorems.Plain(map[], map[]) && n.loads == {} && n.local == {} && !n.built
  }

  ghost predicate Life(ns: seq<Node>, es: seq<Event>, files: seq<seq<Record>>) {
    && files != []
    && |ns| == |es| + 1
    && FreshNode(ns[0], files)
    && forall i :: 0 <= i < |es| ==> Enabled(ns[i], files, es[i]) && ns[i + 1] == After(ns[i], files, es[i])
  }

  lemma FreshNodeOk(n: Node, files: seq<seq<Record>>)
    requires files != [] && FreshNode(n, files)
    ensures NodeOk(n, files)
  {
    hide AddedFrom;
    assert Refines(n.world, n.plain);
  }

  lemma {:induction false} LifeOk(ns: seq<Node>, es: seq<Event>, files: seq<seq<Record>>, i: nat)
    requires Life(ns, es, files) && i < |ns|
    ensures NodeOk(ns[i], files)
  {
    hide NodeOk, After, Enabled;
    if i == 0 {
      FreshNodeOk(ns[0], files);
    } else {
      LifeOk(ns, es, files, i - 1);
      match es[i - 1]
      case BuildFails(_, _) => FailureKeeps(ns[i - 1], files, es[i - 1]);
      case BuildSucceeds(_, _, _) => SuccessKeeps(ns[i - 1], files, es[i - 1]);
      case _ => RestartKeeps(ns[i - 1], files, es[i - 1]);
    }
  }

  // ---------------------------------------------------------------- restarts

  /** The selection of the last build that loaded something, before event `i`. */
  ghost function LastSelection(ns: seq<Node>, es: seq<Event>, i: nat): set<nat>
    requires i <= |es| && |ns| == |es| + 1
  {
    if i == 0 then {}
    else if es[i - 1].BuildSucceeds? && Needed(ns[i - 1]) != {} then ns[i - 1].selected
    else LastSelection(ns, es, i - 1)
  }

  ghost predicate ManifestHas(n: Node, selection: set<nat>) {
    match n.world.disk.manifest
    case None => selection == {}
    case Some(m) => m.selectedPartitions.Some? && AsSet(m.selectedPartitions.value) == selection
  }

  /** Only a build that loads something writes the manifest. */
  lemma ManifestStep(n: Node, files: seq<seq<Record>>, e: Event)
    requires files != [] && NodeOk(n, files) && Enabled(n, files, e)
    ensures var t := After(n, files, e);
            if e.BuildSucceeds? && Needed(n) != {} then ManifestHas(t, n.selected)
            else t.world.disk.manifest == n.world.disk.manifest
  {
    hide Refines, ScanFiles, Sound, Exact;
    match e
    case BuildFails(_, _) => FailureKeeps(n, files, e);
    case BuildSucceeds(id, order, manifestOrder) =>
      if Needed(n) != {} {
        var pairs := BuildScan(n, files).added;
        AddAllRefines(n.world, n.plain, pairs, id);
        SaveManifest(AddAll(n.world, pairs, id), PlainAddAll(n.plain, pairs), order, manifestOrder);
        assert AsSet(manifestOrder) == n.selected;
      }
    case Restarted(_, _, _) =>
    case Killed(adds, id, _, _, _) => AddAllRefines(n.world, n.plain, BuildScan(n, files).added[..adds], id);
  }

  lemma {:induction false} ManifestIsLastSelection(ns: seq<Node>, es: seq<Event>, files: seq<seq<Record>>, i: nat)
    requires Life(ns, es, files) && i < |ns|
    ensures ManifestHas(ns[i], LastSelection(ns, es, i))
  {
    hide NodeOk, After, Enabled;
    if i > 0 {
      ManifestIsLastSelection(ns, es, files, i - 1);
      LifeOk(ns, es, files, i - 1);
      ManifestStep(ns[i - 1], files, es[i - 1]);
    }
  }

  /** What a new process takes for local is the selection in the manifest. */
  lemma HaveIsSelection(n: Node, w: World, m: BlockTheorems.Plain, selection: set<nat>)
    requires ManifestHas(n, selection) && Refines(w, m) && w.disk.manifest == n.world.disk.manifest
    ensures Have(w.disk) == selection
  {
    hide Refines, NewFromManifest;
    if w.disk.manifest.Some? {
      ReloadRestores(w, m);
    } else {
      NothingToLoad(w.disk);
    }
  }

  /** After every restart in every life, the local partitions are those selected by the last build that
      loaded something, the new selection applies, nothing counts as built, and every lookup gives what it
      gave before. */
  lemma RestartExact(ns: seq<Node>, es: seq<Event>, files: seq<seq<Record>>, i: nat, key: Str)
    requires Life(ns, es, files) && i < |es| && (es[i].Restarted? || es[i].Killed?)
    ensures ns[i + 1].local == LastSelection(ns, es, i)
    ensures ns[i + 1].selected == es[i].selection && !ns[i + 1].built
    ensures files != [] && ns[i].world.store.numPartitions == ns[i + 1].world.store.numPartitions == |files|
    ensures Get(ns[i + 1].world.store, key) == Get(ns[i].world.store, key)
  {
    hide Refines, ScanFiles, Sound, Exact, Get, Restart;
    var n, e := ns[i], es[i];
    LifeOk(ns, es, files, i);
    LifeOk(ns, es, files, i + 1);
    ManifestIsLastSelection(ns, es, files, i);
    if e.Killed? {
      var pairs := BuildScan(n, files).added[..e.adds];
      AddAllRefines(n.world, n.plain, pairs, e.id);
      PlainAddAllKeys(n.plain, pairs);
      HaveIsSelection(n, AddAll(n.world, pairs, e.id), PlainAddAll(n.plain, pairs), LastSelection(ns, es, i));
    } else {
      HaveIsSelection(n, n.world, n.plain, LastSelection(ns, es, i));
    }
    SameSavedSameGet(ns[i], ns[i + 1], files, key);
  }

  lemma SameSavedSameGet(n: Node, t: Node, files: seq<seq<Record>>, key: Str)
    requires files != [] && NodeOk(n, files) && NodeOk(t, files) && n.plain.saved == t.plain.saved
    ensures Get(n.world.store, key) == Get(t.world.store, key)
  {
    hide NormalPartition, AlternatePartition;
    GetAgrees(n.world.store, n.plain, key);
    GetAgrees(t.world.store, t.plain, key);
  }

  /** For all files, at every moment of every life of a node: a lookup in its store finds the key if and
      only if some successful build added it, that is, some file which that build did not leave early
      takes the key for a partition that the build loaded. */
  lemma LookupExact(ns: seq<Node>, es: seq<Event>, files: seq<seq<Record>>, i: nat, key: Str)
    requires Life(ns, es, files) && i < |ns|
    ensures files != [] && ns[i].world.store.numPartitions == |files| && ns[i].local <= Loaded(ns[i])
    ensures Get(ns[i].world.store, key).Value? <==> AddedBy(files, key, ns[i].loads)
  {
    hide NormalPartition, AlternatePartition, AddedBy, Life;
    LifeOk(ns, es, files, i);
    GetAgrees(ns[i].world.store, ns[i].plain, key);
  }

  /** With safe files it does not matter which build it was. */
  lemma SafeAddedBy(files: seq<seq<Record>>, key: Str, loads: set<set<nat>>)
    requires files != [] && AllSafe(files, |files|)
    ensures AddedBy(files, key, loads) <==> TakenIn(files, key, LoadedBy(loads), |files|)
  {
    hide AddedFrom, TakenIn, AllSafe;
    var all := LoadedBy(loads);
    TakenInPointwise(files, key, all, |files|);
    if b :| b in loads && AddedFrom(files, key, b, |files|) {
      SafeAdded(files, key, b, |files|);
      TakenInPointwise(files, key, b, |files|);
      var p :| p in b && TakenIn(files, key, {p}, |files|);
      assert p in all;
    }
    if p :| p in all && TakenIn(files, key, {p}, |files|) {
      var b :| b in loads && p in b;
      TakenInPointwise(files, key, b, |files|);
      SafeAdded(files, key, b, |files|);
    }
  }

  /** For safe files: a lookup finds the key if and only if some record with the key was taken for a
      partition that was loaded. */
  lemma SafeLookupExact(ns: seq<Node>, es: seq<Event>, files: seq<seq<Record>>, i: nat, key: Str)
    requires Life(ns, es, files) && i < |ns| && AllSafe(files, |files|)
    ensures ns[i].world.store.numPartitions == |files| && ns[i].local <= Loaded(ns[i])
    ensures Get(ns[i].world.store, key).Value? <==> TakenIn(files, key, Loaded(ns[i]), |files|)
  {
    hide NormalPartition, AlternatePartition, AddedBy, Life, AllSafe, Get;
    LookupExact(ns, es, files, i, key);
    SafeAddedBy(files, key, ns[i].loads);
  }

  /** So a node that holds both partitions of a dataset key finds one of the dataset's values for it;
      for most keys the two are the same. */
  lemma LocalLookupFindsDatasetKeys(ns: seq<Node>, es: seq<Event>, files: seq<seq<Record>>, i: nat, key: Str, value: Str)
    requires Life(ns, es, files) && i < |ns| && AllSafe(files, |files|)
    requires InDataset(files, key, value) && Holds(ns[i].local, key, |files|)
    ensures ns[i].world.store.numPartitions == |files|
    ensures var r := Get(ns[i].world.store, key);
            r.Value? && InDataset(files, key, r.value)
  {
    hide NormalPartition, AlternatePartition, TakenIn, Life;
    SafeLookupExact(ns, es, files, i, key);
    DatasetKeyTaken(files, key, value, Loaded(ns[i]), |files|);
    LookupsAreSound(ns, es, files, i, key);
  }

  /** And a lookup never yields a value that the dataset does not have for the key. */
  lemma LookupsAreSound(ns: seq<Node>, es: seq<Event>, files: seq<seq<Record>>, i: nat, key: Str)
    requires Life(ns, es, files) && i < |ns|
    ensures ns[i].world.store.numPartitions == |files|
    ensures var r := Get(ns[i].world.store, key);
            r.Value? ==> InDataset(files, key, r.value)
  {
    LifeOk(ns, es, files, i);
    GetAgrees(ns[i].world.store, ns[i].plain, key);
  }

  /** For all files: the key's partitions count as missing exactly when no build added a key of either. */
  lemma UnavailableExact(ns: seq<Node>, es: seq<Event>, files: seq<seq<Record>>, i: nat, key: Str)
    requires Life(ns, es, files) && i < |ns|
    ensures files != [] && ns[i].world.store.numPartitions == |files|
    ensures Get(ns[i].world.store, key).PartitionNotFound? <==>
            forall k :: AddedBy(files, k, ns[i].loads) ==>
                          && NormalPartition(k, |files|) != NormalPartition(key, |files|)
                          && NormalPartition(k, |files|) != AlternatePartition(key, |files|)
  {
    hide NormalPartition, AlternatePartition, AddedBy, Life;
    LifeOk(ns, es, files, i);
    GetAgrees(ns[i].world.store, ns[i].plain, key);
  }

  // ---------------------------------------------------------------- serving

  datatype Answer = NotFound404 | Found200(value: Str) | Error500 | AskPeers

  /** `serveKey`. */
  function Serve(n: Node, key: Str, proxied: bool): (a: Answer)
    ensures proxied ==> a != AskPeers
  {
    var total := n.world.store.numPartitions;
    if total == 0 then NotFound404
    else if NormalPartition(key, total) in n.local || AlternatePartition(key, total) in n.local then
      match Get(n.world.store, key)
      case PartitionNotFound => Error500
      case NotFound => NotFound404
      case Value(v) => Found200(v)
    else if proxied then Error500
    else AskPeers
  }

  /** One of the key's partitions is local. */
  predicate HoldsOne(n: Node, key: Str, total: nat)
    requires total > 0
  {
    NormalPartition(key, total) in n.local || AlternatePartition(key, total) in n.local
  }

  /** At every moment of every life: a request is passed on if and only if it was not passed on before and
      neither partition is local; without a local partition one that was passed on before is a 500, and
      with one the answer does not depend on who asks. */
  lemma PassedOnIff(ns: seq<Node>, es: seq<Event>, files: seq<seq<Record>>, i: nat, key: Str, proxied: bool)
    requires Life(ns, es, files) && i < |ns|
    ensures files != []
    ensures Serve(ns[i], key, proxied) == AskPeers <==> !proxied && !HoldsOne(ns[i], key, |files|)
    ensures !HoldsOne(ns[i], key, |files|) ==> Serve(ns[i], key, true) == Error500
    ensures HoldsOne(ns[i], key, |files|) ==> Serve(ns[i], key, true) == Serve(ns[i], key, false)
  {
    hide NormalPartition, AlternatePartition, Get, Life;
    LookupExact(ns, es, files, i, key);
  }

  /** A version without files is a 404 for every key, whoever asks. */
  lemma EmptyVersionAnswer(n: Node, key: Str, proxied: bool)
    requires n.world.store.numPartitions == 0
    ensures Serve(n, key, proxied) == NotFound404
  {
  }

  /** A key that was a 200 before a restart is the same 200 after it if and only if one of its partitions
      was selected by the last build that loaded something; otherwise the request is passed on. */
  lemma AnswerSurvivesRestartIff(ns: seq<Node>, es: seq<Event>, files: seq<seq<Record>>, i: nat, key: Str)
    requires Life(ns, es, files) && i < |es| && (es[i].Restarted? || es[i].Killed?)
    requires Serve(ns[i], key, false).Found200?
    ensures files != []
    ensures var last := LastSelection(ns, es, i);
            Serve(ns[i + 1], key, false) ==
            if NormalPartition(key, |files|) in last || AlternatePartition(key, |files|) in last then Serve(ns[i], key, false) else AskPeers
  {
    hide NormalPartition, AlternatePartition, Get, Life, LastSelection;
    RestartExact(ns, es, files, i, key);
  }

  /** The node is responsible for the same partitions throughout. */
  ghost predicate SameSelection(ns: seq<Node>) {
    forall i, j :: 0 <= i < j < |ns| ==> ns[i].selected == ns[j].selected
  }

  lemma {:induction false} LocalIsLastSelection(ns: seq<Node>, es: seq<Event>, files: seq<seq<Record>>, i: nat)
    requires Life(ns, es, files) && i < |ns| && SameSelection(ns)
    ensures ns[i].local == LastSelection(ns, es, i) && (ns[i].local == {} || ns[i].local == ns[i].selected)
  {
    hide NodeOk, ScanFiles, Enabled;
    if i > 0 {
      LocalIsLastSelection(ns, es, files, i - 1);
      LifeOk(ns, es, files, i - 1);
      assert ns[i - 1].selected == ns[i].selected;
      match es[i - 1]
      case BuildFails(_, _) => FailureKeeps(ns[i - 1], files, es[i - 1]);
      case BuildSucceeds(_, _, _) =>
      case _ => RestartExact(ns, es, files, i - 1, []);
    }
  }

  /** If the selection never changes, a restart changes no answer: what was a 200 stays one. */
  lemma RestartKeepsAnswers(ns: seq<Node>, es: seq<Event>, files: seq<seq<Record>>, i: nat, key: Str, proxied: bool)
    requires Life(ns, es, files) && i < |es| && (es[i].Restarted? || es[i].Killed?) && SameSelection(ns)
    ensures Serve(ns[i + 1], key, proxied) == Serve(ns[i], key, proxied)
  {
    hide NormalPartition, AlternatePartition, Get, After, Enabled, FreshNode, LastSelection;
    RestartExact(ns, es, files, i, key);
    LocalIsLastSelection(ns, es, files, i);
  }

  /** A key that is not in the dataset, looked up in a local partition, is a 404 exactly when one of its
      two partitions holds some saved key; an owned partition without keys answers 500. */
  lemma AbsentKeyAnswer(ns: seq<Node>, es: seq<Event>, files: seq<seq<Record>>, i: nat, key: Str, proxied: bool)
    requires Life(ns, es, files) && i < |ns|
    requires forall v :: !InDataset(files, key, v)
    requires NormalPartition(key, |files|) in ns[i].local || AlternatePartition(key, |files|) in ns[i].local
    ensures var p, q := NormalPartition(key, |files|), AlternatePartition(key, |files|);
            Serve(ns[i], key, proxied) ==
            if Occupied(ns[i].plain.saved, p, |files|) || Occupied(ns[i].plain.saved, q, |files|) then NotFound404 else Error500
  {
    hide NormalPartition, AlternatePartition;
    LifeOk(ns, es, files, i);
    GetAgrees(ns[i].world.store, ns[i].plain, key);
  }

  lemma DatasetKeyAnswer(ns: seq<Node>, es: seq<Event>, files: seq<seq<Record>>, i: nat, key: Str, value: Str, proxied: bool)
    requires Life(ns, es, files) && i < |ns| && AllSafe(files, |files|)
    requires InDataset(files, key, value) && Holds(ns[i].local, key, |files|)
    ensures var a := Serve(ns[i], key, proxied);
            a.Found200? && InDataset(files, key, a.value)
  {
    hide NormalPartition, AlternatePartition;
    LocalLookupFindsDatasetKeys(ns, es, files, i, key, value);
  }

  // ---------------------------------------------------------------- a node that holds one of the two

  /** In some life of some node, for some dataset with `total` files, the node holds the partition and
      does not find the key although the dataset has it. */
  ghost predicate CanMiss(key: Str, total: nat, held: nat) {
    exists ns, es, files, i, value :: Misses(ns, es, files, i, key, value, total, held)
  }

  ghost predicate Misses(ns: seq<Node>, es: seq<Event>, files: seq<seq<Record>>, i: nat, key: Str, value: Str, total: nat, held: nat) {
    && Life(ns, es, files) && i < |ns| && |files| == total && total > 0
    && AllSafe(files, total)
    && InDataset(files, key, value) && held in ns[i].local
    && ns[i].world.store.numPartitions == total && !Get(ns[i].world.store, key).Value?
  }

  /** Files of which only the first holds anything. */
  function OneFile(file: seq<Record>, total: nat): seq<seq<Record>>
    requires total > 0
  {
    [file] + seq(total - 1, _ => [])
  }

  lemma {:induction false} EmptyFiles(n: nat, wanted: set<nat>, total: nat)
    requires total > 0
    ensures ScanFiles(seq(n, _ => []), wanted, total) == Scanned(Finished, [])
  {
    hide NormalPartition, AlternatePartition;
    var files := seq(n, _ => []);
    if n > 0 {
      var rest: seq<seq<Record>> := seq(n - 1, _ => []);
      assert files[1..] == rest;
      EmptyFiles(n - 1, wanted, total);
    }
  }

  /** A short clean file of one partition, scanned for another one, adds nothing. */
  lemma OneFileAddsNothing(file: seq<Record>, held: nat, total: nat)
    requires total > 0 && file != [] && |file| <= 2 && Clean(file, total) && NormalPartition(file[0].key, total) != held
    ensures ScanFiles(OneFile(file, total), {held}, total) == Scanned(Finished, [])
  {
    hide NormalPartition, AlternatePartition, Clean, Scan;
    CleanScan(file, {held}, total);
    ShortFileNeverExits(file, {held}, total);
    EmptyFiles(total - 1, {held}, total);
    assert OneFile(file, total)[1..] == seq(total - 1, _ => []);
  }

  /** A short clean file can be loaded for any partition. */
  lemma OneFileFinishes(file: seq<Record>, held: nat, total: nat)
    requires total > 0 && |file| <= 2 && Clean(file, total)
    ensures ScanFiles(OneFile(file, total), {held}, total).end == Finished
  {
    hide NormalPartition, AlternatePartition, Clean, Scan;
    CleanScan(file, {held}, total);
    EmptyFiles(total - 1, {held}, total);
    assert OneFile(file, total)[1..] == seq(total - 1, _ => []);
  }

  lemma SomeOrder(keys: set<nat>) returns (order: seq<nat>)
    ensures Enumerates(order, keys)
  {
    order := [];
    if p :| p in keys {
      var rest := SomeOrder(keys - {p});
      order := [p] + rest;
    }
  }

  /** A life in which a node loads one partition that can be loaded, and nothing else. */
  lemma OneLoad(files: seq<seq<Record>>, p: nat) returns (ns: seq<Node>, es: seq<Event>)
    requires files != [] && ScanFiles(files, {p}, |files|).end == Finished
    ensures Life(ns, es, files) && |ns| == 2 && ns[1].local == {p} && ns[1].loads == {{p}}
  {
    hide AddAll, ScanFiles, Save;
    var total := |files|;
    var start := Node(World(NewStore(total, Uncompressed, 0), Disk(map[], None)), BlockTheorems.Plain(map[], map[]), {}, {p}, {}, false);
    assert FreshNode(start, files);
    assert Needed(start) == {p};
    var order := SomeOrder(AddAll(start.world, BuildScan(start, files).added, 0).store.pending.Keys);
    var e := BuildSucceeds(0, order, [p]);
    assert Enumerates([p], {p});
    ns, es := [start, After(start, files, e)], [e];
  }

  /** A node that loads one partition of such a dataset misses the keys of the file. */
  lemma MissWitness(file: seq<Record>, held: nat, total: nat, key: Str)
    requires total > 0 && file != [] && |file| <= 2 && Clean(file, total) && NormalPartition(file[0].key, total) != held
    requires Good(key, []) in file
    ensures CanMiss(key, total, held)
  {
    hide NormalPartition, AlternatePartition, Clean, Get, ScanFiles, Refines, Life, AddedFrom;
    var files := OneFile(file, total);
    OneFileAddsNothing(file, held, total);
    OneFileSafe(file, total);
    var ns, es := OneLoad(files, held);
    LookupExact(ns, es, files, 1, key);
    ScanFilesAddExactly(files, {held}, total, key);
    assert Good(key, []) in files[0];
    assert InDataset(files, key, []);
    assert Misses(ns, es, files, 1, key, [], total, held);
  }

  lemma OneFileSafe(file: seq<Record>, total: nat)
    requires total > 0 && |file| <= 2
    ensures AllSafe(OneFile(file, total), total)
  {
    hide Safe;
    var files := OneFile(file, total);
    forall j | 0 <= j < |files| ensures Safe(files[j], total) {
      CleanIsSafe(files[j], total);
    }
  }

  /** Holding one of the two partitions of a key is enough exactly for these keys: with the normal one,
      those whose alternate partition is the same, or no key's normal one; with the alternate one, those
      whose normal partition is the same. For every other key there is a dataset for which the node
      answers without the value. */
  lemma LocalMissIff(key: Str, total: nat)
    requires total > 0
    ensures var p, q := NormalPartition(key, total), AlternatePartition(key, total);
            && (CanMiss(key, total, p) <==> p != q && q < TWO_31)
            && (CanMiss(key, total, q) <==> p != q)
  {
    hide NormalPartition, AlternatePartition, Life, Get, AllSafe, InDataset;
    var p, q := NormalPartition(key, total), AlternatePartition(key, total);
    if p == q || q >= TWO_31 {
      forall ns, es, files, i, value ensures !Misses(ns, es, files, i, key, value, total, p) {
        if Misses(ns, es, files, i, key, value, total, p) {
          LocalLookupFindsDatasetKeys(ns, es, files, i, key, value);
        }
      }
    }
    if p != q {
      assert Clean([Good(key, [])], total);
      MissWitness([Good(key, [])], q, total, key);
      if q < TWO_31 {
        var first := KeyOfPartition(q, total);
        var file := [Good(first, []), Good(key, [])];
        assert Clean(file, total);
        assert file[1] in file;
        MissWitness(file, p, total, key);
      }
    }
  }

  /** Every partition below 2^31 is the normal partition of some key. */
  lemma KeyOfPartition(p: nat, total: nat) returns (key: Str)
    requires p < total && p < TWO_31
    ensures NormalPartition(key, total) == p
  {
    hide JavaHash;
    HashIsOnto(p);
    key :| JavaHash(key) == p;
    assert p % total == p;
  }
}
