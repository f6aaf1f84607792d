/** Nothing is forgotten: every outdated version in the mux is on its way out. */
module LifecycleLeaks {
  import opened Bytes
  import opened Multiplexer
  import opened Lifecycle
  import opened LifecycleInvariant
  import Latch

  /** Someone will still deal with the version: a waiting or running upgrade to it, the sweep of an upgrade
      past it, or a removal. */
  ghost predicate Tended(v: Version, waiting: set<Version>, upgrader: Upgrader, queue: multiset<Removal>, cleaner: Cleaner) {
    || v in waiting
    || ((upgrader.Holding? || upgrader.Read? || upgrader.Decide?) && upgrader.v == v)
    || upgrader.Switched?
    || (upgrader.Sweeping? && v in upgrader.left)
    || Removal(v, true) in queue || Removal(v, false) in queue
    || (!cleaner.NoCleanup? && cleaner.v == v)
  }

  ghost predicate AllTended(versions: map<Str, Entry>, current: Option<Entry>, waiting: set<Version>,
                            upgrader: Upgrader, queue: multiset<Removal>, cleaner: Cleaner)
  {
    forall n :: n in versions && Below(current, n) ==> Tended(versions[n].version, waiting, upgrader, queue, cleaner)
  }

  /** An entry is marked only by the removal that is under way. */
  ghost predicate MarkedByCleaner(versions: map<Str, Entry>, cleaner: Cleaner) {
    forall n :: n in versions && versions[n].removing ==> (cleaner.Timing? || cleaner.Deleting?) && cleaner.v.name == n
  }

  ghost predicate NoLeak(s: State) {
    && AllTended(s.mux.versions, s.mux.current, s.waiting, s.upgrader, s.queue, s.cleaner)
    && MarkedByCleaner(s.mux.versions, s.cleaner)
  }

  lemma PrepareNoLeak(s: State, stop: bool)
    requires Inv(s) && NoLeak(s) && Enabled(s, PrepareVersion(stop))
    ensures NoLeak(After(s, PrepareVersion(stop)))
  {
    hide UniqueNames, Filed, Counted, Readers, UpgraderOk, QueueOk, CleanerOk, ReturnedOk, Unreferenced, RefresherOk, ViewsOk, TimerOk;
  }

  /** Dropping a version queues its removal. */
  lemma DropTends(versions: map<Str, Entry>, current: Option<Entry>, waiting: set<Version>, upgrader: Upgrader,
                  queue: multiset<Removal>, cleaner: Cleaner)
    requires upgrader.Decide? && AllTended(versions, current, waiting, upgrader, queue, cleaner)
    ensures AllTended(versions, current, waiting, NoUpgrade, queue + multiset{Removal(upgrader.v, false)}, cleaner)
  {
  }

  /** The current version needs no tending. */
  lemma CurrentNeedsNone(versions: map<Str, Entry>, current: Option<Entry>, prepared: set<Version>, waiting: set<Version>,
                         upgrader: Upgrader, queue: multiset<Removal>, cleaner: Cleaner)
    requires upgrader.Decide? && AllTended(versions, current, waiting, upgrader, queue, cleaner)
    requires Filed(versions, current, prepared) && current.Some? && current.value.version == upgrader.v
    ensures AllTended(versions, current, waiting, NoUpgrade, queue, cleaner)
  {
    Irreflexive(upgrader.v.name);
  }

  lemma DecideNoLeak(s: State)
    requires Inv(s) && NoLeak(s) && Enabled(s, UpgradeDecide)
    ensures NoLeak(After(s, UpgradeDecide))
  {
    hide UniqueNames, Filed, Counted, Readers, QueueOk, CleanerOk, ReturnedOk, Unreferenced, RefresherOk, ViewsOk, TimerOk, AllTended, MarkedByCleaner, AfterUpgrade;
    var v, cur := s.upgrader.v, s.upgrader.cur;
    DropTends(s.mux.versions, s.mux.current, s.waiting, s.upgrader, s.queue, s.cleaner);
    UpgradeOutcome(s.mux, v);
    if cur == Some(v) {
      CurrentNeedsNone(s.mux.versions, s.mux.current, s.prepared, s.waiting, s.upgrader, s.queue, s.cleaner);
    } else if After(s, UpgradeDecide).upgrader.Switched? {
      SwitchTends(After(s, UpgradeDecide));
    }
  }

  /** Right after a switch the sweep is still to come. */
  lemma SwitchTends(t: State)
    requires t.upgrader.Switched?
    ensures AllTended(t.mux.versions, t.mux.current, t.waiting, t.upgrader, t.queue, t.cleaner)
  {
  }

  lemma SweepNoLeak(s: State, o: Version)
    requires Inv(s) && NoLeak(s) && Enabled(s, UpgradeSweep(o))
    ensures NoLeak(After(s, UpgradeSweep(o)))
  {
    hide UniqueNames, Counted, Readers, QueueOk, CleanerOk, ReturnedOk, Unreferenced, RefresherOk, ViewsOk, TimerOk;
    var t := After(s, UpgradeSweep(o));
    forall n | n in s.mux.versions && Below(s.mux.current, n)
      ensures Tended(s.mux.versions[n].version, t.waiting, t.upgrader, t.queue, t.cleaner)
    {
      assert Tended(s.mux.versions[n].version, s.waiting, s.upgrader, s.queue, s.cleaner);
    }
  }

  lemma UpgradeNoLeak(s: State, step: Step)
    requires Inv(s) && NoLeak(s) && Enabled(s, step) && OfUpgrade(step)
    ensures NoLeak(After(s, step))
  {
    hide UniqueNames, Filed, Counted, Readers, UpgraderOk, QueueOk, CleanerOk, ReturnedOk, Unreferenced, RefresherOk, ViewsOk, TimerOk, Take, GiveBack, IsNewestThree, IsLatest, Listing, Latch.Fresh, Latch.Apply, AfterPrepareVersion, AfterDecide, AfterSweep;
    match step
    case UpgradeRead => TakeFrame(s, UpgradeReader, s.mux.current);
    case UpgradeRelease => GiveBackFrame(s, UpgradeReader);
    case UpgradeDecide => DecideNoLeak(s);
    case UpgradeSweep(o) => SweepNoLeak(s, o);
    case _ =>
  }

  /** The removal is taken from the queue, or moves on. */
  lemma RemovalMovesOn(versions: map<Str, Entry>, current: Option<Entry>, waiting: set<Version>, upgrader: Upgrader,
                       queue: multiset<Removal>, rest: multiset<Removal>, cleaner: Cleaner, next: Cleaner)
    requires AllTended(versions, current, waiting, upgrader, queue, cleaner) && !next.NoCleanup?
    requires cleaner.NoCleanup? || cleaner.v == next.v
    requires forall r :: r in queue && r.version != next.v ==> r in rest
    ensures AllTended(versions, current, waiting, upgrader, rest, next)
  {
    forall n | n in versions && Below(current, n) ensures Tended(versions[n].version, waiting, upgrader, rest, next) {
      assert Tended(versions[n].version, waiting, upgrader, queue, cleaner);
    }
  }

  /** The removal ends, with its version out of the map. */
  lemma RemovalEnds(versions: map<Str, Entry>, current: Option<Entry>, prepared: set<Version>, waiting: set<Version>,
                    upgrader: Upgrader, queue: multiset<Removal>, cleaner: Cleaner)
    requires AllTended(versions, current, waiting, upgrader, queue, cleaner) && Filed(versions, current, prepared)
    requires !cleaner.NoCleanup? && cleaner.v.name !in versions
    ensures AllTended(versions, current, waiting, upgrader, queue, NoCleanup)
  {
    forall n | n in versions && Below(current, n) ensures Tended(versions[n].version, waiting, upgrader, queue, NoCleanup) {
      assert Tended(versions[n].version, waiting, upgrader, queue, cleaner);
    }
  }

  /** Writing the entry back or deleting it leaves all other entries. */
  lemma EntryChanges(versions: map<Str, Entry>, after: map<Str, Entry>, current: Option<Entry>, waiting: set<Version>,
                     upgrader: Upgrader, queue: multiset<Removal>, cleaner: Cleaner)
    requires AllTended(versions, current, waiting, upgrader, queue, cleaner)
    requires forall n :: n in after ==> n in versions && after[n].version == versions[n].version
    ensures AllTended(after, current, waiting, upgrader, queue, cleaner)
  {
  }

  lemma LookupNoLeak(s: State)
    requires Inv(s) && NoLeak(s) && Enabled(s, CleanLookup)
    ensures NoLeak(After(s, CleanLookup))
  {
    hide UniqueNames, Filed, Counted, Readers, UpgraderOk, QueueOk, CleanerOk, ReturnedOk, Unreferenced, RefresherOk, ViewsOk, TimerOk, AllTended;
    var next := After(s, CleanLookup).cleaner;
    if next.NoCleanup? {
      RemovalEnds(s.mux.versions, s.mux.current, s.prepared, s.waiting, s.upgrader, s.queue, s.cleaner);
    } else {
      RemovalMovesOn(s.mux.versions, s.mux.current, s.waiting, s.upgrader, s.queue, s.queue, s.cleaner, next);
    }
  }

  lemma ChangeNoLeak(s: State, step: Step)
    requires Inv(s) && NoLeak(s) && Enabled(s, step) && (step.CleanArm? || step.CleanDelete?)
    ensures NoLeak(After(s, step))
  {
    hide UniqueNames, Filed, Counted, Readers, UpgraderOk, QueueOk, ReturnedOk, Unreferenced, RefresherOk, ViewsOk, TimerOk, AllTended;
    var t := After(s, step);
    RemovalMovesOn(s.mux.versions, s.mux.current, s.waiting, s.upgrader, s.queue, s.queue, s.cleaner, t.cleaner);
    EntryChanges(s.mux.versions, t.mux.versions, s.mux.current, s.waiting, s.upgrader, s.queue, t.cleaner);
  }

  lemma CleanupNoLeak(s: State, step: Step)
    requires Inv(s) && NoLeak(s) && Enabled(s, step) && OfCleanup(step)
    ensures NoLeak(After(s, step))
  {
    hide UniqueNames, Filed, Counted, Readers, UpgraderOk, QueueOk, ReturnedOk, Unreferenced, RefresherOk, ViewsOk, TimerOk, AllTended, IsNewestThree, IsLatest, Listing, Latch.Fresh, Latch.Apply, Take, GiveBack, AfterPrepareVersion, AfterDecide, AfterSweep;
    match step
    case CleanLookup => LookupNoLeak(s);
    case CleanArm | CleanDelete => ChangeNoLeak(s, step);
    case CleanReturn =>
      RemovalEnds(s.mux.versions, s.mux.current, s.prepared, s.waiting, s.upgrader, s.queue, s.cleaner);
    case CleanAcquire(_) | CleanFire =>
      var t := After(s, step);
      RemovalMovesOn(s.mux.versions, s.mux.current, s.waiting, s.upgrader, s.queue, t.queue, s.cleaner, t.cleaner);
    case _ =>
  }

  lemma StepNoLeak(s: State, step: Step)
    requires Inv(s) && NoLeak(s) && Enabled(s, step)
    ensures NoLeak(After(s, step))
  {
    hide Inv, After, Enabled, AllTended, MarkedByCleaner;
    Frame(s, step);
    if OfWorld(step) {
      WorldFrame(s, step);
    } else if OfRequest(step) {
      RequestFrame(s, step);
    } else if OfRefresh(step) {
      RefreshFrame(s, step);
    } else if OfUpgrade(step) {
      UpgradeNoLeak(s, step);
    } else if OfCleanup(step) {
      CleanupNoLeak(s, step);
    } else if step.PrepareVersion? {
      PrepareNoLeak(s, step.stop);
    } else {
      BackfillNoLeak(s, step);
    }
  }

  lemma BackfillNoLeak(s: State, step: Step)
    requires NoLeak(s) && Enabled(s, step) && OfBackfill(step) && !step.PrepareVersion?
    ensures NoLeak(After(s, step))
  {
    hide AllTended, MarkedByCleaner, IsNewestThree, Listing;
  }

  /** At every moment of every run, each version in the mux that is older than the current one has an
      upgrade waiting or under way that will drop it, is still to be swept by the upgrade that overtook
      it, is queued for removal, or is being removed. */
  lemma {:induction false} NothingLeaks(states: seq<State>, steps: seq<Step>, i: nat)
    requires Run(states, steps) && i < |states|
    ensures NoLeak(states[i])
  {
    hide Inv, After, Enabled;
    if i > 0 {
      NothingLeaks(states, steps, i - 1);
      RunInvariant(states, steps, i - 1);
      assert Moves(states, steps, i - 1);
      StepNoLeak(states[i - 1], steps[i - 1]);
    }
  }

  /** So whenever upgrades and removals have come to rest, no version in the mux is older than the current
      one. */
  lemma AtRestNothingIsOutdated(states: seq<State>, steps: seq<Step>, i: nat, n: Str)
    requires Run(states, steps) && i < |states| && n in states[i].mux.versions
    requires states[i].upgrader.NoUpgrade? && states[i].cleaner.NoCleanup? && states[i].queue == multiset{}
    requires forall v :: v in states[i].waiting ==> !Below(states[i].mux.current, v.name)
    ensures !Below(states[i].mux.current, n)
  {
    hide Run, After, Enabled;
    NothingLeaks(states, steps, i);
    RunInvariant(states, steps, i);
  }
}
