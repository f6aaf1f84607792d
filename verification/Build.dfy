/** `build.go`: building the missing partitions of a version into its store. */
module Builds {
  import opened Bytes
  import Hashcode
  import opened Blocks
  import opened BlockStores
  import opened Ingest
  import opened Partitions
  import Node

  datatype Outcome = Done | Canceled | Errored

  /** The files that are scanned: all, or those before the one at which the cancel channel is found closed. */
  function Attempted(files: seq<seq<Record>>, cancelBefore: nat): seq<seq<Record>> {
    if cancelBefore < |files| then files[..cancelBefore] else files
  }

  function OutcomeOf(files: seq<seq<Record>>, wanted: set<nat>, cancelBefore: nat): Outcome
    requires files != []
  {
    if ScanFiles(Attempted(files, cancelBefore), wanted, |files|).end == Failed then Errored
    else if cancelBefore < |files| then Canceled
    else Done
  }

  /** `addFiles`; the cancel channel is found closed before file `cancelBefore`. A version without files
      is done without being saved. */
  method AddFiles(store: BlockStore, files: seq<seq<Record>>, wanted: set<nat>, selected: seq<nat>, cancelBefore: nat, id: nat)
    returns (outcome: Outcome, ghost added: seq<Pair>, ghost order: seq<nat>)
    requires store.Valid() && store.numPartitions == |files|
    modifies store`newBlocks, store`blocks, store`blockMap, store.newBlocks.Values, store.dir
    ensures store.Valid() && fresh(store.newBlocks.Values - old(store.newBlocks.Values))
    ensures files == [] ==> outcome == Done && store.View() == old(store.View())
    ensures files != [] ==>
              && outcome == OutcomeOf(files, wanted, cancelBefore)
              && added == ScanFiles(Attempted(files, cancelBefore), wanted, |files|).added
    ensures files != [] && outcome == Done ==>
              && ScanFiles(files, wanted, |files|) == Scanned(Finished, added)
              && Enumerates(order, AddAll(old(store.View()), added, id).store.pending.Keys)
              && store.View() == Save(AddAll(old(store.View()), added, id), order, selected)
    ensures files != [] && outcome != Done ==> store.View() == AddAll(old(store.View()), added, id)
  {
    hide ScanFiles, AddAll, Save, FileScan;
    added, order := [], [];
    if files == [] {
      return Done, added, order;
    }
    ScanNone(wanted, |files|);
    AddNone(store.View(), id);
    ghost var start := store.View();
    var nextId := id;
    for i := 0 to |files|
      invariant store.Valid() && fresh(store.newBlocks.Values - old(store.newBlocks.Values))
      invariant i <= cancelBefore && ScanFiles(files[..i], wanted, |files|) == Scanned(Finished, added)
      invariant nextId == id + |added| && store.View() == AddAll(start, added, id)
    {
      if i == cancelBefore {
        return Canceled, added, order;
      }
      var failed, count, more := AddFile(store, files[i], wanted, nextId);
      ScanFilesNext(files, i, wanted, |files|);
      AddAllConcat(start, added, more, id);
      added := added + more;
      nextId := nextId + count;
      if failed {
        FailureIsFinal(files, i, cancelBefore, wanted);
        return Errored, added, order;
      }
    }
    assert files[..|files|] == files;
    order := store.Save(selected);
    return Done, added, order;
  }

  lemma ScanNone(wanted: set<nat>, total: nat)
    requires total > 0
    ensures ScanFiles([], wanted, total) == Scanned(Finished, [])
  {
  }

  lemma ScanFilesNext(files: seq<seq<Record>>, i: nat, wanted: set<nat>, total: nat)
    requires total > 0 && i < |files| && ScanFiles(files[..i], wanted, total).end == Finished
    ensures var s := FileScan(files[i], wanted, total);
            ScanFiles(files[..i + 1], wanted, total) ==
            Scanned(if s.end == Failed then Failed else Finished, ScanFiles(files[..i], wanted, total).added + s.added)
  {
    hide FileScan;
    assert files[..i + 1] == files[..i] + [files[i]];
    ScanFilesConcat(files[..i], [files[i]], wanted, total);
    assert [files[i]][1..] == [];
    ScanNone(wanted, total);
  }

  lemma FailureIsFinal(files: seq<seq<Record>>, i: nat, cancelBefore: nat, wanted: set<nat>)
    requires i < |files| && i < cancelBefore && ScanFiles(files[..i + 1], wanted, |files|).end == Failed
    ensures ScanFiles(Attempted(files, cancelBefore), wanted, |files|) == ScanFiles(files[..i + 1], wanted, |files|)
  {
    hide ScanFiles;
    var part := Attempted(files, cancelBefore);
    assert part == files[..i + 1] + part[i + 1..];
    ScanFilesConcat(files[..i + 1], part[i + 1..], wanted, |files|);
  }

  /** What is scanned before a cancellation is the beginning of what a whole scan adds. */
  lemma AttemptedIsPrefix(files: seq<seq<Record>>, cancelBefore: nat, wanted: set<nat>)
    requires files != []
    ensures ScanFiles(Attempted(files, cancelBefore), wanted, |files|).added <= ScanFiles(files, wanted, |files|).added
  {
    hide ScanFiles;
    if cancelBefore < |files| {
      assert files == files[..cancelBefore] + files[cancelBefore..];
      ScanFilesConcat(files[..cancelBefore], files[cancelBefore..], wanted, |files|);
    }
  }

  /** `addFile`; `count` is how many pairs were added. A file left early is not a failure. */
  method AddFile(store: BlockStore, file: seq<Record>, wanted: set<nat>, id: nat) returns (failed: bool, count: nat, ghost added: seq<Pair>)
    requires store.Valid() && store.numPartitions > 0
    modifies store`newBlocks, store.newBlocks.Values, store.dir`files
    ensures store.Valid() && fresh(store.newBlocks.Values - old(store.newBlocks.Values))
    ensures var s := FileScan(file, wanted, store.numPartitions);
            failed == (s.end == Failed) && added == s.added && count == |added|
    ensures store.View() == AddAll(old(store.View()), added, id)
  {
    var end;
    end, count, added := AddFileKeys(store, file, wanted, id);
    failed := end == Failed;
  }

  /** What loading `needed` does to the store: every file is scanned and the result saved, or what was
      added is reverted. */
  ghost predicate Loads(files: seq<seq<Record>>, selected: set<nat>, needed: set<nat>, before: World, after: World,
                        outcome: Outcome, id: nat, added: seq<Pair>, order: seq<nat>, selection: seq<nat>)
    requires files != [] && before.store.numPartitions == |files|
  {
    if outcome == Done then
      && ScanFiles(files, needed, |files|) == Scanned(Finished, added)
      && Enumerates(order, AddAll(before, added, id).store.pending.Keys)
      && Enumerates(selection, selected)
      && after == Save(AddAll(before, added, id), order, selection)
    else
      && added <= ScanFiles(files, needed, |files|).added
      && after == Revert(AddAll(before, added, id))
  }

  /** Such a load is an event in the life of the node, whatever its outcome. */
  lemma LoadIsNodeEvent(n: Node.Node, files: seq<seq<Record>>, after: World, outcome: Outcome, id: nat,
                        added: seq<Pair>, order: seq<nat>, selection: seq<nat>) returns (e: Node.Event)
    requires files != [] && n.world.store.numPartitions == |files|
    requires !n.built && n.selected - n.local != {} && Node.FreshFrom(n.world.disk, id)
    requires Loads(files, n.selected, n.selected - n.local, n.world, after, outcome, id, added, order, selection)
    ensures Node.Enabled(n, files, e)
    ensures var t := Node.After(n, files, e);
            && t.world == after && t.selected == n.selected && t.built == (outcome == Done)
            && t.local == if outcome == Done then n.local + n.selected else n.local
  {
    hide ScanFiles, AddAll, Save, Revert;
    e := if outcome == Done then Node.BuildSucceeds(id, order, selection) else Node.BuildFails(|added|, id);
    if outcome != Done {
      assert Node.BuildScan(n, files).added[..|added|] == added;
    }
  }

  /** A `version`, as far as building is concerned. */
  class Version {
    const files: seq<seq<Record>>
    const store: BlockStore
    const parts: PartitionSet
    var built: bool

    ghost predicate Valid()
      reads this, store, parts, parts.zk
    {
      store.Valid() && parts.Valid() && store.numPartitions == |files|
    }

    constructor (files: seq<seq<Record>>, store: BlockStore, parts: PartitionSet)
      requires store.Valid() && parts.Valid() && store.numPartitions == |files|
      ensures Valid() && this.files == files && this.store == store && this.parts == parts && !built
    {
      this.files, this.store, this.parts, built := files, store, parts, false;
    }

    /** The part of `build` that touches the store. */
    method Load(needed: set<nat>, cancelBefore: nat, id: nat)
      returns (outcome: Outcome, ghost added: seq<Pair>, ghost order: seq<nat>, ghost selection: seq<nat>)
      requires Valid()
      modifies store`newBlocks, store`blocks, store`blockMap, store.newBlocks.Values, store.dir
      ensures store.Valid() && fresh(store.newBlocks.Values - old(store.newBlocks.Values))
      ensures files == [] ==> outcome == Done && store.View() == old(store.View())
      ensures files != [] ==> outcome == OutcomeOf(files, needed, cancelBefore)
      ensures files != [] ==> Loads(files, parts.selected, needed, old(store.View()), store.View(), outcome, id, added, order, selection)
    {
      hide ScanFiles, AddAll, Save, Revert, Attempted;
      var range := RangeOrder(parts.selected);
      selection := range;
      outcome, added, order := AddFiles(store, files, needed, range, cancelBefore, id);
      if outcome != Done {
        AttemptedIsPrefix(files, cancelBefore, needed);
        store.Revert();
      }
    }

    /** `build`, once its locks are held. */
    method Build(cancelBefore: nat, id: nat) returns (outcome: Outcome, ghost added: seq<Pair>, ghost order: seq<nat>, ghost selection: seq<nat>)
      requires Valid()
      modifies this`built, store`newBlocks, store`blocks, store`blockMap, store.newBlocks.Values, store.dir
      modifies parts`local, parts`numMissing, parts`readyClosed, parts`closes, parts.zk
      ensures Valid() && built == (old(built) || outcome == Done)
      ensures var needed := parts.selected - old(parts.local);
              var before := old(store.View());
              if old(built) || needed == {} then
                outcome == Done && store.View() == before && parts.local == old(parts.local)
              else
                && parts.local == (if outcome == Done then old(parts.local) + needed else old(parts.local))
                && if files == [] then outcome == Done && store.View() == before
                   else
                     && outcome == OutcomeOf(files, needed, cancelBefore)
                     && Loads(files, parts.selected, needed, before, store.View(), outcome, id, added, order, selection)
      ensures outcome == Done && !old(built) ==> parts.selected <= parts.local
    {
      hide Loads, OutcomeOf, BlockStore.Valid, BlockStore.View, PartitionSet.Valid;
      added, order, selection := [], [], [];
      if built {
        return Done, added, order, selection;
      }
      var needed := parts.Needed();
      if needed == {} {
        assert forall p :: p in parts.selected && p !in parts.local ==> p in needed;
        built := true;
        return Done, added, order, selection;
      }
      outcome, added, order, selection := Load(needed, cancelBefore, id);
      if outcome == Done {
        parts.UpdateLocalPartitions(needed);
        built := true;
      }
    }
  }
}
