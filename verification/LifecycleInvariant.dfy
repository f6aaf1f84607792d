/** The joint invariant of the version lifecycle, and its preservation by every step. */
module LifecycleInvariant {
  import opened Bytes
  import opened Multiplexer
  import opened Lifecycle
  import Latch

  // ---------------------------------------------------------------- the invariant, piece by piece

  /** No two objects of the same name are ever prepared. */
  ghost predicate UniqueNames(prepared: set<Version>) {
    forall a, b :: a in prepared && b in prepared && a.name == b.name ==> a == b
  }

  predicate Below(current: Option<Entry>, name: Str) {
    current.Some? && Less(name, current.value.version.name)
  }

  /** Map entries are filed under their own names, the current version is among them, and whatever
      was prepared but is no longer in the map is below the current version. */
  ghost predicate Filed(versions: map<Str, Entry>, current: Option<Entry>, prepared: set<Version>) {
    && (forall n :: n in versions ==> versions[n].version.name == n && versions[n].version in prepared)
    && (current.Some? ==>
          var v := current.value.version;
          v in prepared && v.name in versions && versions[v.name].version == v)
    && (forall v :: v in prepared ==> v.name in versions || Below(current, v.name))
  }

  function Holders(refs: map<Client, Version>, v: Version): set<Client> {
    set c | c in refs && refs[c] == v
  }

  /** The count of a version is never below its outstanding references, and exact while it is in
      the map. */
  ghost predicate Counted(counts: map<Version, nat>, versions: map<Str, Entry>, refs: map<Client, Version>, prepared: set<Version>) {
    && counts.Keys == prepared
    && (forall c :: c in refs ==> refs[c] in prepared)
    && (forall v :: v in prepared ==> |Holders(refs, v)| <= counts[v])
    && (forall v :: v in prepared && v.name in versions ==> counts[v] == |Holders(refs, v)|)
  }

  ghost predicate Readers(refs: map<Client, Version>, refresher: Refresher, upgrader: Upgrader) {
    && (UpgradeReader in refs <==> upgrader.Read? && upgrader.cur.Some?)
    && (RefreshReader in refs <==> refresher.Found? || (refresher.ReadCurrent? && refresher.cur.Some?))
  }

  ghost predicate UpgraderOk(current: Option<Entry>, upgrader: Upgrader, prepared: set<Version>, ready: set<Version>) {
    var cur := if current.Some? then Some(current.value.version) else None;
    match upgrader
    case NoUpgrade => true
    case Holding(v) => v in prepared && v in ready
    case Read(v, c) => v in prepared && v in ready && c == cur
    case Decide(v, c) => v in prepared && v in ready && c == cur
    case Switched(v, prev) => cur == Some(v) && (prev.Some? ==> Less(prev.value.name, v.name))
    case Sweeping(v, prev, left) => cur == Some(v) && (prev.Some? ==> Less(prev.value.name, v.name)) && left <= prepared
  }

  /** Every version on its way out is below the current one. */
  ghost predicate QueueOk(current: Option<Entry>, queue: multiset<Removal>, prepared: set<Version>) {
    forall r :: r in queue ==> r.version in prepared && Below(current, r.version.name)
  }

  ghost predicate CleanerOk(versions: map<Str, Entry>, current: Option<Entry>, cleaner: Cleaner, prepared: set<Version>, returned: seq<Version>) {
    && (!cleaner.NoCleanup? ==> cleaner.v in prepared && Below(current, cleaner.v.name))
    && (cleaner.Arming? || cleaner.Timing? || cleaner.Deleting? ==>
          && cleaner.e.version == cleaner.v
          && cleaner.v.name in versions && versions[cleaner.v.name].version == cleaner.v)
    && (cleaner.Timing? ==> versions[cleaner.v.name].armed)
    && (cleaner.Waiting? ==> cleaner.e.version == cleaner.v && cleaner.v.name !in versions && cleaner.v !in returned)
  }

  /** What `remove` returned is out of the map for good, has no references, and came back once. */
  ghost predicate ReturnedOk(versions: map<Str, Entry>, current: Option<Entry>, returned: seq<Version>, cancelled: set<Version>, prepared: set<Version>) {
    && (forall i, j :: 0 <= i < j < |returned| ==> returned[i] != returned[j])
    && (forall v :: v in returned ==> v in prepared && v.name !in versions && Below(current, v.name))
    && (forall v :: v in cancelled <==> v in returned)
  }

  ghost predicate Unreferenced(returned: seq<Version>, counts: map<Version, nat>) {
    forall v :: v in returned ==> v in counts && counts[v] == 0
  }

  ghost predicate NotPrepared(prepared: set<Version>, name: Str) {
    forall v :: v in prepared ==> v.name != name
  }

  ghost predicate TodoOk(todo: seq<Str>, backend: set<Str>, prepared: set<Version>) {
    && (forall i :: 0 <= i < |todo| ==> todo[i] in backend && NotPrepared(prepared, todo[i]))
    && (forall i, j :: 0 <= i < j < |todo| ==> todo[i] != todo[j])
  }

  /** A name about to be prepared never was before. */
  ghost predicate RefresherOk(refresher: Refresher, prepared: set<Version>, backend: set<Str>) {
    && (forall v :: v in prepared ==> v.name in backend)
    && match refresher
       case NotStarted => prepared == {}
       case Listed(l) => l in backend && forall v :: v in prepared ==> !Less(l, v.name)
       case Absent(l) => l in backend && NotPrepared(prepared, l)
       case Created(v, rest) =>
         v.name in backend && NotPrepared(prepared, v.name) && v.name !in rest && TodoOk(rest, backend, prepared)
       case Backfill(todo) => TodoOk(todo, backend, prepared)
       case _ => true
  }

  ghost predicate ViewsOk(views: map<Version, Latch.View>, ready: set<Version>, cancelled: set<Version>, prepared: set<Version>, refresher: Refresher) {
    && prepared <= views.Keys
    && (refresher.Created? ==> refresher.created in views)
    && (forall v :: v in ready ==> v in views && (views[v].readyClosed || v in cancelled))
  }

  /** While a removal waits, its deadline is a full timeout after the last use. */
  ghost predicate TimerOk(cleaner: Cleaner, deadlines: map<Version, nat>, lastUse: map<Version, nat>, timeout: nat) {
    cleaner.Timing? ==>
      cleaner.v in deadlines && cleaner.v in lastUse && deadlines[cleaner.v] == lastUse[cleaner.v] + timeout
  }

  ghost predicate Inv(s: State) {
    && !s.panicked
    && UniqueNames(s.prepared)
    && Filed(s.mux.versions, s.mux.current, s.prepared)
    && Counted(s.mux.counts, s.mux.versions, s.refs, s.prepared)
    && Readers(s.refs, s.refresher, s.upgrader)
    && UpgraderOk(s.mux.current, s.upgrader, s.prepared, s.ready)
    && s.waiting <= s.prepared
    && QueueOk(s.mux.current, s.queue, s.prepared)
    && CleanerOk(s.mux.versions, s.mux.current, s.cleaner, s.prepared, s.returned)
    && ReturnedOk(s.mux.versions, s.mux.current, s.returned, s.cancelled, s.prepared)
    && Unreferenced(s.returned, s.mux.counts)
    && RefresherOk(s.refresher, s.prepared, s.backend)
    && ViewsOk(s.views, s.ready, s.cancelled, s.prepared, s.refresher)
    && TimerOk(s.cleaner, s.mux.deadlines, s.lastUse, s.timeout)
  }

  // ---------------------------------------------------------------- references

  lemma HoldersAfterTake(refs: map<Client, Version>, c: Client, v: Version, w: Version)
    requires c !in refs
    ensures |Holders(refs[c := v], w)| == |Holders(refs, w)| + if v == w then 1 else 0
  {
    var h := Holders(refs, w);
    if v == w {
      assert Holders(refs[c := v], w) == h + {c};
    } else {
      assert Holders(refs[c := v], w) == h;
    }
  }

  lemma HoldersAfterGiveBack(refs: map<Client, Version>, c: Client, w: Version)
    requires c in refs
    ensures |Holders(refs, w)| == |Holders(refs - {c}, w)| + if refs[c] == w then 1 else 0
  {
    var h := Holders(refs - {c}, w);
    if refs[c] == w {
      assert Holders(refs, w) == h + {c};
    } else {
      assert Holders(refs, w) == h;
    }
  }

  lemma CountedAfterTake(counts: map<Version, nat>, versions: map<Str, Entry>, refs: map<Client, Version>, prepared: set<Version>, c: Client, v: Version)
    requires Counted(counts, versions, refs, prepared) && c !in refs && v in prepared
    ensures Counted(counts[v := counts[v] + 1], versions, refs[c := v], prepared)
  {
    forall w | w in prepared
      ensures |Holders(refs[c := v], w)| == |Holders(refs, w)| + if v == w then 1 else 0
    {
      HoldersAfterTake(refs, c, v, w);
    }
  }

  /** Giving back through the map; when the name is gone from it, the count stays as it is. */
  lemma CountedAfterGiveBack(counts: map<Version, nat>, versions: map<Str, Entry>, refs: map<Client, Version>, prepared: set<Version>, c: Client)
    requires Counted(counts, versions, refs, prepared) && c in refs
    ensures refs[c].name in versions ==>
              && counts[refs[c]] > 0
              && Counted(counts[refs[c] := counts[refs[c]] - 1], versions, refs - {c}, prepared)
    ensures refs[c].name !in versions ==> Counted(counts, versions, refs - {c}, prepared)
  {
    forall w | w in prepared
      ensures |Holders(refs, w)| == |Holders(refs - {c}, w)| + if refs[c] == w then 1 else 0
    {
      HoldersAfterGiveBack(refs, c, w);
    }
  }

  /** An entry a client can be given: filed, prepared, and not returned by any `remove`. */
  lemma Handed(s: State, e: Entry)
    requires Inv(s)
    requires Some(e) == s.mux.current || exists n :: Some(e) == Find(s.mux, n)
    ensures e.version in s.prepared && e.version.name in s.mux.versions
    ensures s.mux.versions[e.version.name].version == e.version
    ensures e.version !in s.returned && e.version in s.mux.counts
    ensures s.cleaner.Timing? && s.cleaner.v == e.version ==> e.armed
  {
    hide UniqueNames, Readers, UpgraderOk, QueueOk, Unreferenced, RefresherOk, ViewsOk, TimerOk;
    Irreflexive(e.version.name);
  }

  /** What taking a reference keeps, apart from who reads what. */
  lemma TakeKeeps(s: State, c: Client, e: Option<Entry>)
    requires Inv(s) && c !in s.refs
    requires e == s.mux.current || exists n :: e == Find(s.mux, n)
    ensures var t := Take(s, c, e);
            && Counted(t.mux.counts, t.mux.versions, t.refs, t.prepared)
            && Unreferenced(t.returned, t.mux.counts)
            && TimerOk(t.cleaner, t.mux.deadlines, t.lastUse, t.timeout)
  {
    hide UniqueNames, Filed, Counted, CleanerOk, ReturnedOk, Readers, UpgraderOk, QueueOk, RefresherOk, ViewsOk;
    if e.Some? {
      Handed(s, e.value);
      CountedAfterTake(s.mux.counts, s.mux.versions, s.refs, s.prepared, c, e.value.version);
    }
  }

  /** A reference whose name is in the map is found there by `release`. */
  lemma HeldIsFiled(s: State, c: Client)
    requires Inv(s) && c in s.refs
    ensures s.refs[c] in s.mux.counts
    ensures s.refs[c].name in s.mux.versions ==>
              s.mux.versions[s.refs[c].name].version == s.refs[c] && s.refs[c] !in s.returned
  {
    hide Readers, UpgraderOk, QueueOk, CleanerOk, Unreferenced, RefresherOk, ViewsOk, TimerOk;
  }

  /** What giving one back keeps; in particular the count is positive, so it does not panic. */
  lemma GiveBackKeeps(s: State, c: Client)
    requires Inv(s)
    ensures var t := GiveBack(s, c);
            && !t.panicked
            && Counted(t.mux.counts, t.mux.versions, t.refs, t.prepared)
            && Unreferenced(t.returned, t.mux.counts)
            && t.refs == s.refs - {c}
            && t == s.(mux := s.mux.(counts := t.mux.counts), refs := t.refs)
  {
    hide UniqueNames, Filed, Counted, CleanerOk, ReturnedOk, Readers, UpgraderOk, QueueOk, RefresherOk, ViewsOk, TimerOk;
    if c in s.refs {
      HeldIsFiled(s, c);
      CountedAfterGiveBack(s.mux.counts, s.mux.versions, s.refs, s.prepared, c);
    } else {
      assert s.refs - {c} == s.refs;
    }
  }

  // ---------------------------------------------------------------- preservation, actor by actor

  lemma InitHolds(s: State)
    requires Init(s)
    ensures Inv(s)
  {
  }

  lemma WorldKeeps(s: State, step: Step)
    requires Inv(s) && Enabled(s, step)
    requires step.Tick? || step.Publish? || step.PartitionUpdate? || step.CloseReady?
    ensures Inv(After(s, step))
  {
    hide UniqueNames, Filed, Counted, Readers, QueueOk, CleanerOk, ReturnedOk, Unreferenced, TimerOk;
  }

  lemma RequestKeeps(s: State, step: Step)
    requires Inv(s) && Enabled(s, step)
    requires step.RequestCurrent? || step.RequestVersion? || step.RequestDone?
    ensures Inv(After(s, step))
  {
    hide UniqueNames, Filed, Counted, UpgraderOk, QueueOk, CleanerOk, ReturnedOk, Unreferenced, RefresherOk, ViewsOk, TimerOk;
    match step
    case RequestCurrent(id) => TakeKeeps(s, Request(id), s.mux.current);
    case RequestVersion(id, name) => TakeKeeps(s, Request(id), Find(s.mux, name));
    case RequestDone(id) => GiveBackKeeps(s, Request(id));
  }

  lemma BackfillStartKeeps(s: State, newest: seq<Str>)
    requires Inv(s) && Enabled(s, BackfillStart(newest))
    ensures Inv(After(s, BackfillStart(newest)))
  {
    hide UniqueNames, Filed, Counted, UpgraderOk, QueueOk, CleanerOk, ReturnedOk, Unreferenced, ViewsOk, TimerOk;
    ViewsWithoutCreated(s, Backfill(newest));
    forall i, j | 0 <= i < j < |newest| ensures newest[i] != newest[j] {
      Asymmetric(newest[j], newest[i]);
    }
  }

  lemma BackfillNextKeeps(s: State, step: Step)
    requires Inv(s) && Enabled(s, step) && (step.BackfillSkip? || step.BackfillEnd?)
    ensures Inv(After(s, step))
  {
    hide UniqueNames, Filed, Counted, UpgraderOk, QueueOk, CleanerOk, ReturnedOk, Unreferenced, ViewsOk, TimerOk, NotPrepared;
    ViewsWithoutCreated(s, After(s, step).refresher);
  }

  lemma CreateKeeps(s: State, v: Version, view: Latch.View)
    requires Inv(s) && Enabled(s, Create(v, view))
    ensures Inv(After(s, Create(v, view)))
  {
    hide UniqueNames, Filed, Counted, UpgraderOk, QueueOk, CleanerOk, ReturnedOk, Unreferenced, TimerOk, NotPrepared, Latch.Fresh;
  }

  lemma RefreshReadKeeps(s: State)
    requires Inv(s) && Enabled(s, RefreshRead)
    ensures Inv(After(s, RefreshRead))
  {
    hide UniqueNames, Filed, Counted, UpgraderOk, QueueOk, CleanerOk, ReturnedOk, Unreferenced, ViewsOk, TimerOk;
    TakeKeeps(s, RefreshReader, s.mux.current);
    ViewsWithoutCreated(s, ReadCurrent(CurrentVersion(s.mux)));
  }

  lemma ViewsWithoutCreated(s: State, r: Refresher)
    requires Inv(s) && !r.Created?
    ensures ViewsOk(s.views, s.ready, s.cancelled, s.prepared, r)
  {
    hide UniqueNames, Filed, Counted, Readers, UpgraderOk, QueueOk, CleanerOk, ReturnedOk, Unreferenced, RefresherOk, TimerOk;
  }

  lemma RefreshFailKeeps(s: State)
    requires Inv(s) && Enabled(s, RefreshFail)
    ensures Inv(After(s, RefreshFail))
  {
    hide UniqueNames, Filed, Counted, UpgraderOk, QueueOk, CleanerOk, ReturnedOk, Unreferenced, ViewsOk, TimerOk;
    ViewsWithoutCreated(s, Idle);
  }

  lemma RefreshReleaseKeeps(s: State, step: Step)
    requires Inv(s) && Enabled(s, step) && (step.RefreshRelease? || step.RefreshFound?)
    ensures Inv(After(s, step))
  {
    hide UniqueNames, Filed, Counted, UpgraderOk, QueueOk, CleanerOk, ReturnedOk, Unreferenced, TimerOk, GiveBack;
    GiveBackKeeps(s, RefreshReader);
  }

  /** The newest listed name is at least every name prepared so far. */
  lemma RefreshListKeeps(s: State, latest: Option<Str>)
    requires Inv(s) && Enabled(s, RefreshList(latest))
    ensures Inv(After(s, RefreshList(latest)))
  {
    hide UniqueNames, Filed, Counted, UpgraderOk, QueueOk, CleanerOk, ReturnedOk, Unreferenced, TimerOk;
    if latest.Some? {
      var l, after := latest.value, s.refresher.after;
      forall v | v in s.prepared
        ensures !Less(l, v.name)
      {
        assert v.name in s.backend;
        if Less(l, v.name) {
          Transitive(after, l, v.name);
        }
      }
    }
  }

  /** A newest name that is not in the map was never prepared. */
  lemma LatestIsNew(s: State)
    requires Inv(s) && s.refresher.Listed? && s.refresher.latest !in s.mux.versions
    ensures RefresherOk(Absent(s.refresher.latest), s.prepared, s.backend)
  {
    hide UniqueNames, Counted, Readers, UpgraderOk, QueueOk, CleanerOk, ReturnedOk, Unreferenced, ViewsOk, TimerOk;
  }

  lemma FoundIsKnown(s: State, v: Version)
    requires Inv(s)
    ensures RefresherOk(Found(v), s.prepared, s.backend)
  {
    hide UniqueNames, Filed, Counted, Readers, UpgraderOk, QueueOk, CleanerOk, ReturnedOk, Unreferenced, ViewsOk, TimerOk;
  }

  lemma RefreshLookupKeeps(s: State)
    requires Inv(s) && Enabled(s, RefreshLookup)
    ensures Inv(After(s, RefreshLookup))
  {
    hide UniqueNames, Filed, Counted, UpgraderOk, QueueOk, CleanerOk, ReturnedOk, Unreferenced, RefresherOk, ViewsOk, TimerOk;
    var e := Find(s.mux, s.refresher.latest);
    TakeKeeps(s, RefreshReader, e);
    ViewsWithoutCreated(s, After(s, RefreshLookup).refresher);
    if e.Some? {
      FoundIsKnown(s, e.value.version);
    } else {
      LatestIsNew(s);
    }
  }

  lemma FiledAfterPrepare(versions: map<Str, Entry>, current: Option<Entry>, prepared: set<Version>, v: Version)
    requires Filed(versions, current, prepared) && NotPrepared(prepared, v.name)
    ensures v.name !in versions
    ensures Filed(versions[v.name := Entry(v, false, false)], current, prepared + {v})
  {
  }

  lemma CountedAfterPrepare(counts: map<Version, nat>, versions: map<Str, Entry>, refs: map<Client, Version>, prepared: set<Version>, v: Version)
    requires Counted(counts, versions, refs, prepared) && NotPrepared(prepared, v.name)
    ensures Counted(counts[v := 0], versions[v.name := Entry(v, false, false)], refs, prepared + {v})
  {
    assert Holders(refs, v) == {};
  }

  lemma DoomedAfterPrepare(s: State, v: Version)
    requires Inv(s) && NotPrepared(s.prepared, v.name)
    ensures var versions := s.mux.versions[v.name := Entry(v, false, false)];
            && CleanerOk(versions, s.mux.current, s.cleaner, s.prepared + {v}, s.returned)
            && ReturnedOk(versions, s.mux.current, s.returned, s.cancelled, s.prepared + {v})
  {
    hide UniqueNames, Filed, Counted, Readers, UpgraderOk, QueueOk, Unreferenced, RefresherOk, ViewsOk, TimerOk;
  }

  lemma OthersAfterPrepare(s: State, v: Version)
    requires Inv(s) && NotPrepared(s.prepared, v.name)
    ensures UniqueNames(s.prepared + {v})
    ensures UpgraderOk(s.mux.current, s.upgrader, s.prepared + {v}, s.ready)
    ensures QueueOk(s.mux.current, s.queue, s.prepared + {v})
    ensures Unreferenced(s.returned, s.mux.counts[v := 0])
  {
    hide Filed, Counted, Readers, CleanerOk, ReturnedOk, RefresherOk, ViewsOk, TimerOk;
  }

  lemma RefresherAfterPrepare(s: State, stop: bool)
    requires Inv(s) && s.refresher.Created?
    ensures var v, next := s.refresher.created, Backfill(if stop then [] else s.refresher.rest);
            && NotPrepared(s.prepared, v.name)
            && RefresherOk(next, s.prepared + {v}, s.backend)
            && ViewsOk(s.views, s.ready, s.cancelled, s.prepared + {v}, next)
            && Readers(s.refs, next, s.upgrader)
  {
    hide UniqueNames, Filed, Counted, UpgraderOk, QueueOk, CleanerOk, ReturnedOk, Unreferenced, TimerOk;
  }

  lemma PrepareKeeps(s: State, stop: bool)
    requires Inv(s) && Enabled(s, PrepareVersion(stop))
    ensures Inv(After(s, PrepareVersion(stop)))
  {
    hide UniqueNames, Filed, Counted, Readers, UpgraderOk, QueueOk, CleanerOk, ReturnedOk, Unreferenced, RefresherOk, ViewsOk, TimerOk, NotPrepared;
    var v := s.refresher.created;
    RefresherAfterPrepare(s, stop);
    FiledAfterPrepare(s.mux.versions, s.mux.current, s.prepared, v);
    CountedAfterPrepare(s.mux.counts, s.mux.versions, s.refs, s.prepared, v);
    DoomedAfterPrepare(s, v);
    OthersAfterPrepare(s, v);
  }

  lemma UpgradeReadKeeps(s: State, step: Step)
    requires Inv(s) && Enabled(s, step)
    requires step.UpgradeAcquire? || step.UpgradeRead? || step.UpgradeRelease?
    ensures Inv(After(s, step))
  {
    hide UniqueNames, Filed, Counted, QueueOk, CleanerOk, ReturnedOk, Unreferenced, RefresherOk, ViewsOk, TimerOk, IsNewestThree, IsLatest, Listing, Latch.Fresh, Latch.Apply, AfterPrepareVersion, AfterDecide, AfterSweep;
    if step.UpgradeRead? {
      TakeKeeps(s, UpgradeReader, s.mux.current);
    } else {
      GiveBackKeeps(s, UpgradeReader);
    }
  }

  /** Moving the current version forward keeps everything that was below it below it. */
  lemma BelowAfterSwitch(current: Option<Entry>, e: Entry, name: Str)
    requires Below(current, name)
    requires !Less(e.version.name, current.value.version.name)
    ensures Below(Some(e), name)
  {
    LessThenAtMost(name, current.value.version.name, e.version.name);
  }

  /** A version that is not below the current one is still in the map. */
  lemma UpgradeFinds(s: State)
    requires Inv(s) && Enabled(s, UpgradeDecide)
    requires !Below(s.mux.current, s.upgrader.v.name)
    ensures MustGet(s.mux, s.upgrader.v).Some?
  {
    hide Counted, Readers, QueueOk, CleanerOk, ReturnedOk, Unreferenced, RefresherOk, ViewsOk, TimerOk;
  }

  lemma SwitchKeeps(s: State, e: Entry)
    requires Inv(s) && MustGet(s.mux, e.version) == Some(e)
    requires forall n :: Below(s.mux.current, n) ==> Below(Some(e), n)
    ensures Filed(s.mux.versions, Some(e), s.prepared)
    ensures QueueOk(Some(e), s.queue, s.prepared)
    ensures CleanerOk(s.mux.versions, Some(e), s.cleaner, s.prepared, s.returned)
    ensures ReturnedOk(s.mux.versions, Some(e), s.returned, s.cancelled, s.prepared)
  {
    hide UniqueNames, Counted, Readers, UpgraderOk, Unreferenced, RefresherOk, ViewsOk, TimerOk;
  }

  lemma UpgradeDropKeeps(s: State)
    requires Inv(s) && Enabled(s, UpgradeDecide)
    ensures Below(s.mux.current, s.upgrader.v.name) ==>
              Inv(s.(queue := s.queue + multiset{Removal(s.upgrader.v, false)}, upgrader := NoUpgrade))
    ensures Inv(s.(upgrader := NoUpgrade))
    ensures s.upgrader.cur == CurrentVersion(s.mux)
  {
    hide UniqueNames, Filed, Counted, CleanerOk, ReturnedOk, Unreferenced, RefresherOk, ViewsOk, TimerOk;
  }

  lemma UpgradeDecideKeeps(s: State)
    requires Inv(s) && Enabled(s, UpgradeDecide)
    ensures Inv(After(s, UpgradeDecide))
  {
    hide Inv;
    var v, cur := s.upgrader.v, s.upgrader.cur;
    UpgradeDropKeeps(s);
    if !Below(s.mux.current, v.name) && cur != Some(v) {
      UpgradeFinds(s);
      UpgradeSwitchKeeps(s, MustGet(s.mux, v).value);
    }
  }

  lemma UpgradeSwitchKeeps(s: State, e: Entry)
    requires Inv(s) && Enabled(s, UpgradeDecide) && MustGet(s.mux, s.upgrader.v) == Some(e)
    requires !Below(s.mux.current, e.version.name) && s.upgrader.cur != Some(e.version)
    ensures Inv(s.(mux := s.mux.(current := Some(e)), upgrader := Switched(e.version, s.upgrader.cur)))
  {
    hide UniqueNames, Filed, Counted, QueueOk, CleanerOk, ReturnedOk, Unreferenced, RefresherOk, ViewsOk, TimerOk;
    forall n | Below(s.mux.current, n) ensures Below(Some(e), n) {
      BelowAfterSwitch(s.mux.current, e, n);
    }
    SwitchKeeps(s, e);
    if s.upgrader.cur.Some? {
      PreviousIsBelow(s);
    }
  }

  lemma PreviousIsBelow(s: State)
    requires Inv(s) && Enabled(s, UpgradeDecide)
    requires s.upgrader.cur.Some? && s.upgrader.cur != Some(s.upgrader.v)
    ensures Less(s.upgrader.v.name, s.upgrader.cur.value.name) || Less(s.upgrader.cur.value.name, s.upgrader.v.name)
  {
    hide Counted, Readers, QueueOk, CleanerOk, ReturnedOk, Unreferenced, RefresherOk, ViewsOk, TimerOk;
    Total(s.upgrader.cur.value.name, s.upgrader.v.name);
  }

  lemma SnapshotKeeps(s: State, step: Step)
    requires Inv(s) && Enabled(s, step)
    requires step.UpgradeSnapshot? || step.UpgradeDone?
    ensures Inv(After(s, step))
  {
    hide UniqueNames, Counted, QueueOk, CleanerOk, ReturnedOk, Unreferenced, RefresherOk, ViewsOk, TimerOk;
    assert All(s.mux) <= s.prepared;
  }

  lemma SweepKeeps(s: State, o: Version)
    requires Inv(s) && Enabled(s, UpgradeSweep(o))
    ensures Inv(After(s, UpgradeSweep(o)))
  {
    hide UniqueNames, Filed, Counted, CleanerOk, ReturnedOk, Unreferenced, RefresherOk, ViewsOk, TimerOk;
  }

  lemma CleanAcquireKeeps(s: State, r: Removal)
    requires Inv(s) && Enabled(s, CleanAcquire(r))
    ensures Inv(After(s, CleanAcquire(r)))
  {
    hide UniqueNames, Filed, Counted, Readers, UpgraderOk, ReturnedOk, Unreferenced, RefresherOk, ViewsOk;
  }

  lemma CleanLookupKeeps(s: State)
    requires Inv(s) && Enabled(s, CleanLookup)
    ensures Inv(After(s, CleanLookup))
  {
    hide Counted, Readers, UpgraderOk, QueueOk, ReturnedOk, Unreferenced, RefresherOk, ViewsOk;
  }

  /** Arming writes the entry back under its own name. */
  lemma MapAfterArm(s: State, e: Entry)
    requires Inv(s) && MustGet(s.mux, e.version).Some?
    ensures var versions := s.mux.versions[e.version.name := e];
            && Filed(versions, s.mux.current, s.prepared)
            && Counted(s.mux.counts, versions, s.refs, s.prepared)
            && ReturnedOk(versions, s.mux.current, s.returned, s.cancelled, s.prepared)
  {
    hide UniqueNames, Readers, UpgraderOk, QueueOk, CleanerOk, Unreferenced, RefresherOk, ViewsOk, TimerOk;
  }

  lemma CleanArmKeeps(s: State)
    requires Inv(s) && Enabled(s, CleanArm)
    ensures Inv(After(s, CleanArm))
  {
    hide UniqueNames, Filed, Counted, Readers, UpgraderOk, QueueOk, ReturnedOk, Unreferenced, RefresherOk, ViewsOk;
    MapAfterArm(s, s.cleaner.e.(armed := true));
  }

  lemma CleanFireKeeps(s: State)
    requires Inv(s) && Enabled(s, CleanFire)
    ensures Inv(After(s, CleanFire))
  {
    hide UniqueNames, Filed, Counted, Readers, UpgraderOk, QueueOk, ReturnedOk, Unreferenced, RefresherOk, ViewsOk;
  }

  /** Only a version below the current one leaves the map. */
  lemma MapAfterDelete(s: State, v: Version)
    requires Inv(s) && Below(s.mux.current, v.name)
    ensures var versions := s.mux.versions - {v.name};
            && Filed(versions, s.mux.current, s.prepared)
            && Counted(s.mux.counts, versions, s.refs, s.prepared)
            && ReturnedOk(versions, s.mux.current, s.returned, s.cancelled, s.prepared)
  {
    hide UniqueNames, Readers, UpgraderOk, QueueOk, CleanerOk, Unreferenced, RefresherOk, ViewsOk, TimerOk;
    Irreflexive(v.name);
  }

  lemma FiledIsNotReturned(s: State, v: Version)
    requires Inv(s) && v.name in s.mux.versions
    ensures v !in s.returned
  {
    hide UniqueNames, Filed, Counted, Readers, UpgraderOk, QueueOk, CleanerOk, Unreferenced, RefresherOk, ViewsOk, TimerOk;
  }

  lemma CleanDeleteKeeps(s: State)
    requires Inv(s) && Enabled(s, CleanDelete)
    ensures Inv(After(s, CleanDelete))
  {
    hide UniqueNames, Filed, Counted, Readers, UpgraderOk, QueueOk, ReturnedOk, Unreferenced, RefresherOk, ViewsOk;
    MapAfterDelete(s, s.cleaner.v);
    FiledIsNotReturned(s, s.cleaner.v);
  }

  lemma CleanReturnKeeps(s: State)
    requires Inv(s) && Enabled(s, CleanReturn)
    ensures Inv(After(s, CleanReturn))
  {
    hide UniqueNames, Filed, Readers, UpgraderOk, QueueOk, RefresherOk, IsNewestThree, IsLatest, Listing, Latch.Fresh, Latch.Apply, Take, GiveBack, AfterPrepareVersion, AfterDecide, AfterSweep;
  }

  lemma StepKeeps(s: State, step: Step)
    requires Inv(s) && Enabled(s, step)
    ensures Inv(After(s, step))
  {
    hide UniqueNames, Filed, Counted, Readers, UpgraderOk, QueueOk, CleanerOk, ReturnedOk, Unreferenced, RefresherOk, ViewsOk, TimerOk;
    match step
    case Tick | Publish(_) | PartitionUpdate(_, _) | CloseReady(_) => WorldKeeps(s, step);
    case RequestCurrent(_) | RequestVersion(_, _) | RequestDone(_) => RequestKeeps(s, step);
    case BackfillStart(newest) => BackfillStartKeeps(s, newest);
    case BackfillSkip | BackfillEnd => BackfillNextKeeps(s, step);
    case Create(v, view) => CreateKeeps(s, v, view);
    case RefreshRead => RefreshReadKeeps(s);
    case RefreshFail => RefreshFailKeeps(s);
    case RefreshRelease | RefreshFound => RefreshReleaseKeeps(s, step);
    case RefreshList(latest) => RefreshListKeeps(s, latest);
    case RefreshLookup => RefreshLookupKeeps(s);
    case PrepareVersion(stop) => PrepareKeeps(s, stop);
    case UpgradeAcquire(_) | UpgradeRead | UpgradeRelease => UpgradeReadKeeps(s, step);
    case UpgradeDecide => UpgradeDecideKeeps(s);
    case UpgradeSnapshot | UpgradeDone => SnapshotKeeps(s, step);
    case UpgradeSweep(o) => SweepKeeps(s, o);
    case CleanAcquire(r) => CleanAcquireKeeps(s, r);
    case CleanLookup => CleanLookupKeeps(s);
    case CleanArm => CleanArmKeeps(s);
    case CleanFire => CleanFireKeeps(s);
    case CleanDelete => CleanDeleteKeeps(s);
    case CleanReturn => CleanReturnKeeps(s);
  }

  /** Every state of every run satisfies the invariant. */
  lemma {:induction false} RunInvariant(states: seq<State>, steps: seq<Step>, i: nat)
    requires Run(states, steps) && i < |states|
    ensures Inv(states[i])
  {
    if i == 0 {
      InitHolds(states[0]);
    } else {
      RunInvariant(states, steps, i - 1);
      assert Moves(states, steps, i - 1);
      StepKeeps(states[i - 1], steps[i - 1]);
    }
  }
}
