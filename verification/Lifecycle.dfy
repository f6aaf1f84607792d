/** The life of the versions of one database: `db.go` driving `version_mux.go` and `version.go`.

    Every region under a lock is one atomic step; the goroutines (one refresh at a time, one upgrade
    at a time, one cleanup at a time, any number of requests, waiting upgrades and queued removals)
    interleave freely between steps. */
module Lifecycle {
  import opened Bytes
  import opened Multiplexer
  import Latch

  /** Who holds a reference: a request, or `db.upgrade` and `db.refresh` reading the current one. */
  datatype Client = Request(id: nat) | UpgradeReader | RefreshReader

  /** The holder of `refreshLock`: `backfillVersions` once, then `refresh` any number of times. */
  datatype Refresher =
    | NotStarted
    | Idle
    | ReadCurrent(cur: Option<Version>)
    | AfterKnown(after: Str)
    | Listed(latest: Str)
    | Found(existing: Version)
    | Absent(missing: Str)
    | Created(created: Version, rest: seq<Str>)
    | Backfill(todo: seq<Str>)

  /** The holder of `upgradeLock`. */
  datatype Upgrader =
    | NoUpgrade
    | Holding(v: Version)
    | Read(v: Version, cur: Option<Version>)
    | Decide(v: Version, cur: Option<Version>)
    | Switched(v: Version, prev: Option<Version>)
    | Sweeping(v: Version, prev: Option<Version>, left: set<Version>)

  /** A `removeVersion` goroutine that has not got `cleanupLock` yet. */
  datatype Removal = Removal(version: Version, wait: bool)

  /** The holder of `cleanupLock`. */
  datatype Cleaner =
    | NoCleanup
    | Starting(v: Version, wait: bool)
    | Arming(v: Version, e: Entry)
    | Timing(v: Version, e: Entry)
    | Deleting(v: Version, e: Entry)
    | Waiting(v: Version, e: Entry)

  /** `lastUse`, `prepared` and `returned` record history and are read by no step. */
  datatype State = State(
    timeout: nat,
    clustered: bool,
    now: nat,
    backend: set<Str>,
    mux: Mux,
    refs: map<Client, Version>,
    views: map<Version, Latch.View>,
    ready: set<Version>,
    cancelled: set<Version>,
    refresher: Refresher,
    waiting: set<Version>,
    upgrader: Upgrader,
    queue: multiset<Removal>,
    cleaner: Cleaner,
    lastUse: map<Version, nat>,
    prepared: set<Version>,
    returned: seq<Version>,
    panicked: bool)

  predicate Init(s: State) {
    && s.mux == EMPTY
    && s.refs == map[] && s.views == map[] && s.ready == {} && s.cancelled == {}
    && s.refresher == NotStarted && s.waiting == {} && s.upgrader == NoUpgrade
    && s.queue == multiset{} && s.cleaner == NoCleanup
    && s.lastUse == map[] && s.prepared == {} && s.returned == [] && !s.panicked
  }

  datatype Step =
    // the world
    | Tick
    | Publish(name: Str)
    | PartitionUpdate(v: Version, update: Latch.Update)
    | CloseReady(v: Version)
    // requests
    | RequestCurrent(id: nat)
    | RequestVersion(id: nat, name: Str)
    | RequestDone(id: nat)
    // backfillVersions and refresh
    | BackfillStart(newest: seq<Str>)
    | BackfillSkip
    | BackfillEnd
    | RefreshRead
    | RefreshRelease
    | RefreshList(latest: Option<Str>)
    | RefreshLookup
    | RefreshFound
    // a listing that fails, in backfillVersions too, or a version that cannot be created
    | RefreshFail
    | Create(v: Version, view: Latch.View)
    | PrepareVersion(stop: bool)
    // db.upgrade
    | UpgradeAcquire(v: Version)
    | UpgradeRead
    | UpgradeRelease
    | UpgradeDecide
    | UpgradeSnapshot
    | UpgradeSweep(o: Version)
    | UpgradeDone
    // removeVersion
    | CleanAcquire(r: Removal)
    | CleanLookup
    | CleanArm
    | CleanFire
    | CleanDelete
    | CleanReturn

  // ---------------------------------------------------------------- references

  /** A client is handed the version of an entry. */
  function Take(s: State, c: Client, e: Option<Entry>): State {
    if e.None? then s
    else s.(mux := Touch(s.mux, e.value, s.now + s.timeout),
            refs := s.refs[c := e.value.version],
            lastUse := s.lastUse[e.value.version := s.now])
  }

  /** A client gives its reference back. */
  function GiveBack(s: State, c: Client): State {
    if c !in s.refs then s
    else match AfterRelease(s.mux, s.refs[c])
         case Panic => s.(panicked := true)
         case Done(m) => s.(mux := m, refs := s.refs - {c})
  }

  // ---------------------------------------------------------------- listings

  /** `ListVersions(db, after)`. */
  function Listing(backend: set<Str>, after: Str): set<Str> {
    set n | n in backend && Less(after, n)
  }

  predicate IsLatest(names: set<Str>, n: Str) {
    n in names && forall m :: m in names ==> !Less(n, m)
  }

  /** The last three of a listing, newest first. */
  predicate IsNewestThree(names: set<Str>, newest: seq<Str>) {
    && |newest| <= 3
    && (forall i :: 0 <= i < |newest| ==> newest[i] in names)
    && (forall i, j :: 0 <= i < j < |newest| ==> Less(newest[j], newest[i]))
    && (forall n :: n in names && n !in newest ==>
          |newest| == 3 && forall i :: 0 <= i < |newest| ==> Less(n, newest[i]))
  }

  // ---------------------------------------------------------------- enabledness

  /** The name `newVersion` is called for next, if any. */
  function NextToCreate(r: Refresher): Option<Str> {
    match r
    case Absent(name) => Some(name)
    case Backfill(todo) => if todo != [] then Some(todo[0]) else None
    case _ => None
  }

  ghost predicate Enabled(s: State, step: Step) {
    && !s.panicked
    && match step
       case Tick => true
       case Publish(_) => true
       case PartitionUpdate(v, _) => v in s.views
       case CloseReady(v) => v in s.views && (s.views[v].readyClosed || v in s.cancelled)
       case RequestCurrent(id) => Request(id) !in s.refs
       case RequestVersion(id, _) => Request(id) !in s.refs
       case RequestDone(id) => Request(id) in s.refs
       case BackfillStart(newest) => s.refresher.NotStarted? && IsNewestThree(Listing(s.backend, []), newest)
       case BackfillSkip => s.refresher.Backfill? && s.refresher.todo != []
       case BackfillEnd => s.refresher.Backfill? && s.refresher.todo == []
       case RefreshRead => s.refresher.Idle?
       case RefreshRelease => s.refresher.ReadCurrent?
       case RefreshList(latest) =>
         && s.refresher.AfterKnown?
         && var names := Listing(s.backend, s.refresher.after);
            if latest.None? then names == {} else IsLatest(names, latest.value)
       case RefreshLookup => s.refresher.Listed?
       case RefreshFound => s.refresher.Found?
       case RefreshFail => s.refresher.NotStarted? || s.refresher.AfterKnown? || s.refresher.Absent?
       case Create(v, view) =>
         && v !in s.views
         && (exists num, remote :: view == Latch.Fresh(num, remote))
         && NextToCreate(s.refresher) == Some(v.name)
       case PrepareVersion(stop) => s.refresher.Created? && (stop ==> s.refresher.created in s.ready)
       case UpgradeAcquire(v) => s.upgrader.NoUpgrade? && v in s.waiting && v in s.ready
       case UpgradeRead => s.upgrader.Holding?
       case UpgradeRelease => s.upgrader.Read?
       case UpgradeDecide => s.upgrader.Decide?
       case UpgradeSnapshot => s.upgrader.Switched?
       case UpgradeSweep(o) => s.upgrader.Sweeping? && o in s.upgrader.left
       case UpgradeDone => s.upgrader.Sweeping? && s.upgrader.left == {}
       case CleanAcquire(r) => s.cleaner.NoCleanup? && r in s.queue
       case CleanLookup => s.cleaner.Starting?
       case CleanArm => s.cleaner.Arming?
       case CleanFire =>
         && s.cleaner.Timing?
         && s.cleaner.e.version in s.mux.deadlines
         && s.now >= s.mux.deadlines[s.cleaner.e.version]
       case CleanDelete => s.cleaner.Deleting?
       case CleanReturn => s.cleaner.Waiting? && Count(s.mux, s.cleaner.e.version) == 0
  }

  // ---------------------------------------------------------------- effects

  function After(s: State, step: Step): State
    requires Enabled(s, step)
  {
    match step
    case Tick => s.(now := s.now + 1)
    case Publish(name) => s.(backend := s.backend + {name})
    case PartitionUpdate(v, u) => s.(views := s.views[v := Latch.Apply(s.views[v], u)])
    case CloseReady(v) => s.(ready := s.ready + {v})
    case RequestCurrent(id) => Take(s, Request(id), s.mux.current)
    case RequestVersion(id, name) => Take(s, Request(id), Find(s.mux, name))
    case RequestDone(id) => GiveBack(s, Request(id))
    case BackfillStart(newest) => s.(refresher := Backfill(newest))
    case BackfillSkip => s.(refresher := Backfill(s.refresher.todo[1..]))
    case BackfillEnd => s.(refresher := Idle)
    case RefreshRead => Take(s, RefreshReader, s.mux.current).(refresher := ReadCurrent(CurrentVersion(s.mux)))
    case RefreshRelease =>
      var after: Str := if s.refresher.cur.Some? then s.refresher.cur.value.name else [];
      GiveBack(s, RefreshReader).(refresher := AfterKnown(after))
    case RefreshList(latest) => s.(refresher := if latest.None? then Idle else Listed(latest.value))
    case RefreshLookup =>
      var e := Find(s.mux, s.refresher.latest);
      Take(s, RefreshReader, e).(refresher := if e.Some? then Found(e.value.version) else Absent(s.refresher.latest))
    case RefreshFound => GiveBack(s, RefreshReader).(refresher := Idle)
    case RefreshFail => s.(refresher := Idle)
    case Create(v, view) =>
      var rest := if s.refresher.Backfill? then s.refresher.todo[1..] else [];
      s.(views := s.views[v := view], refresher := Created(v, rest))
    case PrepareVersion(stop) => AfterPrepareVersion(s, stop)
    case UpgradeAcquire(v) => s.(waiting := s.waiting - {v}, upgrader := Holding(v))
    case UpgradeRead =>
      Take(s, UpgradeReader, s.mux.current).(upgrader := Read(s.upgrader.v, CurrentVersion(s.mux)))
    case UpgradeRelease => GiveBack(s, UpgradeReader).(upgrader := Decide(s.upgrader.v, s.upgrader.cur))
    case UpgradeDecide => AfterDecide(s)
    case UpgradeSnapshot => s.(upgrader := Sweeping(s.upgrader.v, s.upgrader.prev, All(s.mux)))
    case UpgradeSweep(o) => AfterSweep(s, o)
    case UpgradeDone => s.(upgrader := NoUpgrade)
    case CleanAcquire(r) =>
      s.(queue := s.queue - multiset{r}, cleaner := Starting(r.version, r.wait && s.clustered))
    case CleanLookup =>
      var e := RemoveLookup(s.mux, s.cleaner.v);
      s.(cleaner := if e.None? then NoCleanup
                    else if s.cleaner.wait then Arming(s.cleaner.v, e.value)
                    else Deleting(s.cleaner.v, e.value))
    case CleanArm =>
      s.(mux := RemoveArm(s.mux, s.cleaner.v, s.cleaner.e, s.now + s.timeout),
         lastUse := s.lastUse[s.cleaner.e.version := s.now],
         cleaner := Timing(s.cleaner.v, s.cleaner.e.(armed := true)))
    case CleanFire => s.(cleaner := Deleting(s.cleaner.v, s.cleaner.e))
    case CleanDelete =>
      s.(mux := RemoveDelete(s.mux, s.cleaner.v), cleaner := Waiting(s.cleaner.v, s.cleaner.e))
    case CleanReturn =>
      // removed.close() closes the cancel channel.
      s.(returned := s.returned + [s.cleaner.v],
         cancelled := s.cancelled + {s.cleaner.v},
         cleaner := NoCleanup)
  }

  function AfterPrepareVersion(s: State, stop: bool): State
    requires s.refresher.Created?
  {
    var v := s.refresher.created;
    match AfterPrepare(s.mux, v)
    case Panic => s.(panicked := true)
    case Done(m) =>
      s.(mux := m, prepared := s.prepared + {v}, waiting := s.waiting + {v},
         refresher := Backfill(if stop then [] else s.refresher.rest))
  }

  /** Roll forward, or drop the version if it is out of date already. */
  function AfterDecide(s: State): State
    requires s.upgrader.Decide?
  {
    var v, cur := s.upgrader.v, s.upgrader.cur;
    if cur.Some? && Less(v.name, cur.value.name) then
      s.(queue := s.queue + multiset{Removal(v, false)}, upgrader := NoUpgrade)
    else if cur == Some(v) then
      s.(upgrader := NoUpgrade)
    else
      match AfterUpgrade(s.mux, v)
      case Panic => s.(panicked := true)
      case Done(m) => s.(mux := m, upgrader := Switched(v, cur))
  }

  function AfterSweep(s: State, o: Version): State
    requires s.upgrader.Sweeping?
  {
    var v, prev := s.upgrader.v, s.upgrader.prev;
    var spawned :=
      if prev == Some(o) then multiset{Removal(o, true)}
      else if Less(o.name, v.name) then multiset{Removal(o, false)}
      else multiset{};
    s.(queue := s.queue + spawned, upgrader := s.upgrader.(left := s.upgrader.left - {o}))
  }

  // ---------------------------------------------------------------- who changes what

  predicate OfWorld(step: Step) {
    step.Tick? || step.Publish? || step.PartitionUpdate? || step.CloseReady?
  }

  predicate OfRequest(step: Step) {
    step.RequestCurrent? || step.RequestVersion? || step.RequestDone?
  }

  predicate OfBackfill(step: Step) {
    step.BackfillStart? || step.BackfillSkip? || step.BackfillEnd? || step.Create? || step.PrepareVersion?
  }

  predicate OfRefresh(step: Step) {
    step.RefreshRead? || step.RefreshRelease? || step.RefreshList? || step.RefreshLookup? || step.RefreshFound? || step.RefreshFail?
  }

  predicate OfUpgrade(step: Step) {
    || step.UpgradeAcquire? || step.UpgradeRead? || step.UpgradeRelease? || step.UpgradeDecide?
    || step.UpgradeSnapshot? || step.UpgradeSweep? || step.UpgradeDone?
  }

  predicate OfCleanup(step: Step) {
    step.CleanAcquire? || step.CleanLookup? || step.CleanArm? || step.CleanFire? || step.CleanDelete? || step.CleanReturn?
  }

  lemma TakeFrame(s: State, c: Client, e: Option<Entry>)
    ensures var t := Take(s, c, e);
            && t == s.(mux := t.mux, refs := t.refs, lastUse := t.lastUse)
            && t.mux.versions == s.mux.versions && t.mux.current == s.mux.current
  {
  }

  lemma GiveBackFrame(s: State, c: Client)
    ensures var t := GiveBack(s, c);
            && t == s.(mux := t.mux, refs := t.refs, panicked := t.panicked)
            && t.mux.versions == s.mux.versions && t.mux.current == s.mux.current
            && (forall d :: d in t.refs ==> d in s.refs)
  {
  }

  lemma WorldFrame(s: State, step: Step)
    requires Enabled(s, step) && OfWorld(step)
    ensures var t := After(s, step);
            && t == s.(now := t.now, backend := t.backend, views := t.views, ready := t.ready)
            && t.now >= s.now && (!step.PartitionUpdate? ==> t.views == s.views)
  {
  }

  lemma RequestFrame(s: State, step: Step)
    requires Enabled(s, step) && OfRequest(step)
    ensures var t := After(s, step);
            && t == s.(mux := t.mux, refs := t.refs, lastUse := t.lastUse, panicked := t.panicked)
            && t.mux.versions == s.mux.versions && t.mux.current == s.mux.current
  {
    hide Take, GiveBack;
    match step
    case RequestCurrent(id) => TakeFrame(s, Request(id), s.mux.current);
    case RequestVersion(id, name) => TakeFrame(s, Request(id), Find(s.mux, name));
    case RequestDone(id) => GiveBackFrame(s, Request(id));
  }

  lemma BackfillFrame(s: State, step: Step)
    requires Enabled(s, step) && OfBackfill(step)
    ensures var t := After(s, step);
            && t == s.(mux := t.mux, views := t.views, refresher := t.refresher, prepared := t.prepared,
                       waiting := t.waiting, panicked := t.panicked)
            && t.mux.current == s.mux.current && s.prepared <= t.prepared
            && (!step.PrepareVersion? ==> t.mux == s.mux && t.prepared == s.prepared && t.waiting == s.waiting)
            && (!step.Create? ==> t.views == s.views)
  {
    hide IsNewestThree, Listing, Latch.Fresh, AfterPrepareVersion;
    if step.PrepareVersion? {
      PrepareFrame(s, step.stop);
    }
  }

  lemma PrepareFrame(s: State, stop: bool)
    requires s.refresher.Created?
    ensures var t := AfterPrepareVersion(s, stop);
            && t == s.(mux := t.mux, refresher := t.refresher, prepared := t.prepared, waiting := t.waiting, panicked := t.panicked)
            && t.mux.current == s.mux.current && s.prepared <= t.prepared
  {
  }

  lemma RefreshFrame(s: State, step: Step)
    requires Enabled(s, step) && OfRefresh(step)
    ensures var t := After(s, step);
            && t == s.(mux := t.mux, refs := t.refs, lastUse := t.lastUse, refresher := t.refresher, panicked := t.panicked)
            && t.mux.versions == s.mux.versions && t.mux.current == s.mux.current
  {
    hide Take, GiveBack, IsLatest, Listing;
    match step
    case RefreshRead => TakeFrame(s, RefreshReader, s.mux.current);
    case RefreshLookup => TakeFrame(s, RefreshReader, Find(s.mux, s.refresher.latest));
    case RefreshRelease => GiveBackFrame(s, RefreshReader);
    case RefreshFound => GiveBackFrame(s, RefreshReader);
    case _ =>
  }

  lemma UpgradeFrame(s: State, step: Step)
    requires Enabled(s, step) && OfUpgrade(step)
    ensures var t := After(s, step);
            && t == s.(mux := t.mux, refs := t.refs, lastUse := t.lastUse, waiting := t.waiting, upgrader := t.upgrader,
                       queue := t.queue, panicked := t.panicked)
            && t.mux.versions == s.mux.versions
            && (!step.UpgradeDecide? ==> t.mux.current == s.mux.current)
            && (!step.UpgradeRead? && !step.UpgradeRelease? ==>
                  t.mux.counts == s.mux.counts && t.refs == s.refs && t.lastUse == s.lastUse)
  {
    hide Take, GiveBack, AfterDecide, AfterSweep;
    match step
    case UpgradeRead => TakeFrame(s, UpgradeReader, s.mux.current);
    case UpgradeRelease => GiveBackFrame(s, UpgradeReader);
    case UpgradeDecide => DecideFrame(s);
    case UpgradeSweep(o) => SweepFrame(s, o);
    case _ =>
  }

  lemma DecideFrame(s: State)
    requires s.upgrader.Decide?
    ensures var t := AfterDecide(s);
            && t == s.(mux := t.mux, upgrader := t.upgrader, queue := t.queue, panicked := t.panicked)
            && t.mux.versions == s.mux.versions && t.mux.counts == s.mux.counts
  {
    hide AfterUpgrade, Less;
    UpgradeOutcome(s.mux, s.upgrader.v);
  }

  lemma UpgradeOutcome(m: Mux, v: Version)
    ensures AfterUpgrade(m, v).Done? ==>
              AfterUpgrade(m, v).mux.versions == m.versions && AfterUpgrade(m, v).mux.counts == m.counts
  {
  }

  lemma SweepFrame(s: State, o: Version)
    requires s.upgrader.Sweeping?
    ensures var t := AfterSweep(s, o);
            t == s.(upgrader := t.upgrader, queue := t.queue)
  {
  }

  lemma CleanupFrame(s: State, step: Step)
    requires Enabled(s, step) && OfCleanup(step)
    ensures var t := After(s, step);
            && t == s.(mux := t.mux, lastUse := t.lastUse, queue := t.queue, cleaner := t.cleaner,
                       returned := t.returned, cancelled := t.cancelled)
            && t.mux.current == s.mux.current && t.mux.counts == s.mux.counts && s.cancelled <= t.cancelled
            && (!step.CleanArm? ==> t.lastUse == s.lastUse && t.mux.versions.Keys <= s.mux.versions.Keys)
  {
  }

  /** Every step belongs to one actor and leaves the fields of the others alone. */
  lemma Frame(s: State, step: Step)
    requires Enabled(s, step)
    ensures OfWorld(step) || OfRequest(step) || OfBackfill(step) || OfRefresh(step) || OfUpgrade(step) || OfCleanup(step)
    ensures var t := After(s, step);
            && t.timeout == s.timeout && t.clustered == s.clustered && t.now >= s.now
            && s.prepared <= t.prepared && s.cancelled <= t.cancelled
            && (!step.PrepareVersion? ==> t.prepared == s.prepared)
            && (!OfUpgrade(step) ==> t.upgrader == s.upgrader)
            && (!OfUpgrade(step) && !step.PrepareVersion? ==> t.waiting == s.waiting)
            && (!OfUpgrade(step) && !OfCleanup(step) ==> t.queue == s.queue)
            && (!OfBackfill(step) && !OfRefresh(step) ==> t.refresher == s.refresher)
            && (!step.PartitionUpdate? && !step.Create? ==> t.views == s.views)
            && (!step.UpgradeDecide? ==> t.mux.current == s.mux.current)
            && (!OfCleanup(step) ==> t.cleaner == s.cleaner && t.returned == s.returned && t.cancelled == s.cancelled)
  {
    hide After, Enabled;
    if OfWorld(step) {
      WorldFrame(s, step);
    } else if OfRequest(step) {
      RequestFrame(s, step);
    } else if OfBackfill(step) {
      BackfillFrame(s, step);
    } else if OfRefresh(step) {
      RefreshFrame(s, step);
    } else if OfUpgrade(step) {
      UpgradeFrame(s, step);
    } else {
      CleanupFrame(s, step);
    }
  }

  // ---------------------------------------------------------------- runs

  ghost predicate Run(states: seq<State>, steps: seq<Step>) {
    && |states| == |steps| + 1
    && Init(states[0])
    && forall i :: 0 <= i < |steps| ==> Moves(states, steps, i)
  }

  ghost predicate Moves(states: seq<State>, steps: seq<Step>, i: nat)
    requires |states| == |steps| + 1 && i < |steps|
  {
    Enabled(states[i], steps[i]) && states[i + 1] == After(states[i], steps[i])
  }
}
