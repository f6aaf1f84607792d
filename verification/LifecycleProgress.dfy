/** What the lifecycle gets done: upgrades switch, requests get what is current, refreshes move on, and the
    version just replaced is waited for. */
module LifecycleProgress {
  import opened Bytes
  import opened Multiplexer
  import opened Lifecycle
  import opened LifecycleInvariant
  import Latch

  // ---------------------------------------------------------------- upgrades

  /** An upgrade to the version has begun and is not decided yet. */
  predicate InHand(upgrader: Upgrader, v: Version) {
    (upgrader.Holding? || upgrader.Read? || upgrader.Decide?) && upgrader.v == v
  }

  predicate NotNewer(current: Option<Entry>, name: Str) {
    current.Some? && !Less(current.value.version.name, name)
  }

  /** Every prepared version waits for its upgrade, is being upgraded to, or is not newer than the current
      one; and an upgrade to a version happens once. */
  ghost predicate Pursued(current: Option<Entry>, prepared: set<Version>, waiting: set<Version>, upgrader: Upgrader) {
    && (forall v :: v in prepared ==> v in waiting || InHand(upgrader, v) || NotNewer(current, v.name))
    && (!upgrader.NoUpgrade? ==> upgrader.v !in waiting)
    && (current.Some? ==> current.value.version !in waiting && !InHand(upgrader, current.value.version))
  }

  ghost predicate PursuedIn(s: State) {
    Pursued(s.mux.current, s.prepared, s.waiting, s.upgrader)
  }

  lemma PreparePursued(s: State, stop: bool)
    requires Inv(s) && PursuedIn(s) && Enabled(s, PrepareVersion(stop))
    ensures PursuedIn(After(s, PrepareVersion(stop)))
  {
    hide UniqueNames, Counted, Readers, QueueOk, CleanerOk, ReturnedOk, Unreferenced, ViewsOk, TimerOk;
  }

  /** The decision: an older version is dropped and its removal queued, any other becomes current. */
  ghost predicate Decided(s: State, t: State, v: Version) {
    && t.waiting == s.waiting && t.prepared == s.prepared
    && if Below(s.mux.current, v.name) then
         t.mux == s.mux && t.upgrader == NoUpgrade && t.queue == s.queue + multiset{Removal(v, false)}
       else
         && CurrentVersion(t.mux) == Some(v) && t.upgrader == Switched(v, CurrentVersion(s.mux)) && t.queue == s.queue
         && t.mux.versions == s.mux.versions
  }

  lemma DecisionFollows(s: State)
    requires s.upgrader.Decide? && s.upgrader.cur == CurrentVersion(s.mux) && s.upgrader.cur != Some(s.upgrader.v)
    requires !Below(s.mux.current, s.upgrader.v.name) ==> MustGet(s.mux, s.upgrader.v).Some?
    ensures Decided(s, AfterDecide(s), s.upgrader.v)
  {
    hide Less;
  }

  lemma DecisionMade(s: State)
    requires Inv(s) && PursuedIn(s) && s.upgrader.Decide?
    ensures s.upgrader.cur == CurrentVersion(s.mux) && s.upgrader.cur != Some(s.upgrader.v)
  {
    hide UniqueNames, Filed, Counted, Readers, QueueOk, CleanerOk, ReturnedOk, Unreferenced, RefresherOk, ViewsOk, TimerOk;
  }

  lemma DecideIs(s: State)
    requires Enabled(s, UpgradeDecide)
    ensures s.upgrader.Decide? && After(s, UpgradeDecide) == AfterDecide(s)
  {
    hide AfterDecide;
  }

  lemma DecideStep(s: State)
    requires Inv(s) && PursuedIn(s) && Enabled(s, UpgradeDecide)
    ensures s.upgrader.Decide? && Decided(s, After(s, UpgradeDecide), s.upgrader.v)
  {
    hide Inv, Pursued, After, Enabled, AfterDecide, Decided;
    DecideIs(s);
    DecisionMade(s);
    if !Below(s.mux.current, s.upgrader.v.name) {
      UpgradeFinds(s);
    }
    DecisionFollows(s);
  }

  lemma StillNotNewer(current: Option<Entry>, next: Option<Entry>, name: Str)
    requires NotNewer(current, name) && next.Some? && !Less(next.value.version.name, current.value.version.name)
    ensures NotNewer(next, name)
  {
    if Less(next.value.version.name, name) {
      LessThenAtMost(next.value.version.name, name, current.value.version.name);
    }
  }

  lemma DecidePursued(s: State)
    requires Inv(s) && PursuedIn(s) && Enabled(s, UpgradeDecide)
    ensures PursuedIn(After(s, UpgradeDecide))
  {
    hide Inv, After, Enabled;
    DecideStep(s);
    var v, t := s.upgrader.v, After(s, UpgradeDecide);
    forall w | w in t.prepared ensures w in t.waiting || NotNewer(t.mux.current, w.name) {
      if w == v && Below(s.mux.current, v.name) {
        Asymmetric(v.name, s.mux.current.value.version.name);
      } else if w == v {
        Irreflexive(v.name);
      } else if w !in t.waiting && !Below(s.mux.current, v.name) {
        StillNotNewer(s.mux.current, t.mux.current, w.name);
      }
    }
  }

  lemma OtherUpgradePursued(s: State, step: Step)
    requires Inv(s) && PursuedIn(s) && Enabled(s, step) && OfUpgrade(step) && !step.UpgradeDecide?
    ensures PursuedIn(After(s, step))
  {
    hide UniqueNames, Filed, Counted, Readers, QueueOk, CleanerOk, ReturnedOk, Unreferenced, RefresherOk, ViewsOk, TimerOk, Take, GiveBack, IsNewestThree, IsLatest, Listing, Latch.Fresh, Latch.Apply, AfterPrepareVersion, AfterDecide;
    match step
    case UpgradeRead => TakeFrame(s, UpgradeReader, s.mux.current);
    case UpgradeRelease => GiveBackFrame(s, UpgradeReader);
    case _ =>
  }

  lemma StepPursued(s: State, step: Step)
    requires Inv(s) && PursuedIn(s) && Enabled(s, step)
    ensures PursuedIn(After(s, step))
  {
    hide Inv, After, Enabled, Pursued;
    Frame(s, step);
    if step.PrepareVersion? {
      PreparePursued(s, step.stop);
    } else if step.UpgradeDecide? {
      DecidePursued(s);
    } else if OfUpgrade(step) {
      OtherUpgradePursued(s, step);
    }
  }

  lemma {:induction false} AllPursued(states: seq<State>, steps: seq<Step>, i: nat)
    requires Run(states, steps) && i < |states|
    ensures PursuedIn(states[i])
  {
    hide Inv, After, Enabled;
    if i > 0 {
      AllPursued(states, steps, i - 1);
      RunInvariant(states, steps, i - 1);
      assert Moves(states, steps, i - 1);
      StepPursued(states[i - 1], steps[i - 1]);
    }
  }

  /** In every run an upgrade to a version that is not older than the current one makes it the current one;
      an upgrade to an older one leaves the current one and queues the removal of the older one. */
  lemma UpgradeSwitches(states: seq<State>, steps: seq<Step>, i: nat)
    requires Run(states, steps) && i < |steps| && steps[i].UpgradeDecide?
    ensures states[i].upgrader.Decide?
    ensures var v := states[i].upgrader.v;
            if Below(states[i].mux.current, v.name) then
              && states[i + 1].mux.current == states[i].mux.current
              && states[i + 1].queue == states[i].queue + multiset{Removal(v, false)}
            else CurrentVersion(states[i + 1].mux) == Some(v)
  {
    hide Inv, After, Pursued;
    assert Moves(states, steps, i);
    RunInvariant(states, steps, i);
    AllPursued(states, steps, i);
    DecideStep(states[i]);
  }

  /** Whenever no upgrade is under way and no ready version waits for one, no ready version that was ever
      prepared is newer than the current one. */
  lemma AtRestNothingIsNewer(states: seq<State>, steps: seq<Step>, i: nat, v: Version)
    requires Run(states, steps) && i < |states|
    requires states[i].upgrader.NoUpgrade? && (forall w :: w in states[i].waiting ==> w !in states[i].ready)
    requires v in states[i].prepared && v in states[i].ready
    ensures states[i].mux.current.Some? && !Less(states[i].mux.current.value.version.name, v.name)
  {
    hide Run;
    AllPursued(states, steps, i);
  }

  /** And as long as one waits, its upgrade can begin. */
  lemma ReadyCanUpgrade(states: seq<State>, steps: seq<Step>, i: nat, v: Version)
    requires Run(states, steps) && i < |states| && states[i].upgrader.NoUpgrade?
    requires v in states[i].waiting && v in states[i].ready
    ensures Enabled(states[i], UpgradeAcquire(v))
  {
    hide After;
    RunInvariant(states, steps, i);
  }

  // ---------------------------------------------------------------- requests

  /** A request gets the version that is current at that moment, if there is one, and a proxied request the
      version that it names, if that is prepared; its reference is the one more that is counted. */
  lemma RequestsAreServed(states: seq<State>, steps: seq<Step>, i: nat)
    requires Run(states, steps) && i < |steps| && (steps[i].RequestCurrent? || steps[i].RequestVersion?)
    ensures var s, t, c := states[i], states[i + 1], Request(steps[i].id);
            var e := if steps[i].RequestCurrent? then s.mux.current else Find(s.mux, steps[i].name);
            if e.Some? then
              && c in t.refs && t.refs[c] == e.value.version && e.value.version !in t.cancelled
              && Count(t.mux, e.value.version) == Count(s.mux, e.value.version) + 1
            else t == s
  {
    hide UniqueNames, Filed, Counted, Readers, UpgraderOk, QueueOk, CleanerOk, Unreferenced, RefresherOk, ViewsOk, TimerOk;
    assert Moves(states, steps, i);
    RunInvariant(states, steps, i);
    var e := if steps[i].RequestCurrent? then states[i].mux.current else Find(states[i].mux, steps[i].name);
    if e.Some? {
      Handed(states[i], e.value);
    }
  }

  // ---------------------------------------------------------------- refreshes

  /** The last time before `i` that a refresh read the current version. */
  ghost function LastRead(steps: seq<Step>, i: nat): (k: nat)
    requires i <= |steps|
    ensures k <= i
  {
    if i == 0 then 0 else if steps[i - 1].RefreshRead? then i - 1 else LastRead(steps, i - 1)
  }

  function NameOf(v: Option<Version>): Str {
    if v.Some? then v.value.name else []
  }

  ghost predicate ReadTrue(states: seq<State>, steps: seq<Step>, i: nat)
    requires |states| == |steps| + 1 && i <= |steps|
  {
    var cur := CurrentVersion(states[LastRead(steps, i)].mux);
    && (states[i].refresher.ReadCurrent? ==> states[i].refresher.cur == cur)
    && (states[i].refresher.AfterKnown? ==> states[i].refresher.after == NameOf(cur))
  }

  lemma RefresherSteps(s: State, step: Step)
    requires Enabled(s, step)
    ensures var t := After(s, step);
            && (t.refresher.ReadCurrent? ==> if step.RefreshRead? then t.refresher.cur == CurrentVersion(s.mux) else t.refresher == s.refresher)
            && (t.refresher.AfterKnown? ==>
                  && !step.RefreshRead?
                  && (t.refresher == s.refresher || (s.refresher.ReadCurrent? && t.refresher.after == NameOf(s.refresher.cur))))
  {
    hide After;
    Frame(s, step);
    if OfBackfill(step) {
      BackfillRefresher(s, step);
    } else if OfRefresh(step) {
      RefreshRefresher(s, step);
    }
  }

  lemma BackfillRefresher(s: State, step: Step)
    requires Enabled(s, step) && OfBackfill(step)
    ensures !After(s, step).refresher.ReadCurrent? && !After(s, step).refresher.AfterKnown?
  {
    hide IsNewestThree, Listing, Latch.Fresh;
  }

  lemma RefreshRefresher(s: State, step: Step)
    requires Enabled(s, step) && OfRefresh(step)
    ensures var t := After(s, step);
            && (t.refresher.ReadCurrent? ==> step.RefreshRead? && t.refresher.cur == CurrentVersion(s.mux))
            && (t.refresher.AfterKnown? ==> !step.RefreshRead? && s.refresher.ReadCurrent? && t.refresher.after == NameOf(s.refresher.cur))
  {
    hide Take, GiveBack, IsLatest, Listing;
  }

  lemma {:induction false} ReadsAreTrue(states: seq<State>, steps: seq<Step>, i: nat)
    requires Run(states, steps) && i <= |steps|
    ensures ReadTrue(states, steps, i)
  {
    hide After, Enabled;
    if i > 0 {
      ReadsAreTrue(states, steps, i - 1);
      assert Moves(states, steps, i - 1);
      RefresherSteps(states[i - 1], steps[i - 1]);
    }
  }

  /** In every run a refresh goes for the newest name of the backend, and that is strictly newer than the
      version that was current when it looked; it has nothing to do only if no name is newer. */
  lemma RefreshFindsNewest(states: seq<State>, steps: seq<Step>, i: nat)
    requires Run(states, steps) && i < |steps| && steps[i].RefreshList?
    ensures var after, backend := NameOf(CurrentVersion(states[LastRead(steps, i)].mux)), states[i].backend;
            match steps[i].latest
            case None => forall n :: n in backend ==> !Less(after, n)
            case Some(l) => l in backend && Less(after, l) && (forall n :: n in backend ==> !Less(l, n)) && states[i + 1].refresher == Listed(l)
  {
    assert Moves(states, steps, i);
    ReadsAreTrue(states, steps, i);
    var after := states[i].refresher.after;
    match steps[i].latest
    case None =>
      forall n | n in states[i].backend ensures !Less(after, n) {
        assert n !in Listing(states[i].backend, after);
      }
    case Some(l) =>
      forall n | n in states[i].backend ensures !Less(l, n) {
        assert n in Listing(states[i].backend, after) <==> Less(after, n);
        if Less(l, n) {
          Transitive(after, l, n);
        }
      }
  }

  /** Backfill is over, and what comes next is newer than everything before. */
  ghost predicate OnlyNewer(refresher: Refresher, prepared: set<Version>) {
    match refresher
    case NotStarted => false
    case Backfill(todo) => todo == []
    case Absent(l) => forall v :: v in prepared ==> Less(v.name, l)
    case Created(c, rest) => rest == [] && forall v :: v in prepared ==> Less(v.name, c.name)
    case _ => true
  }

  lemma RefreshOnlyNewer(s: State, step: Step)
    requires Inv(s) && OnlyNewer(s.refresher, s.prepared) && Enabled(s, step) && OfRefresh(step)
    ensures OnlyNewer(After(s, step).refresher, s.prepared)
  {
    hide UniqueNames, Counted, Readers, UpgraderOk, QueueOk, CleanerOk, ReturnedOk, Unreferenced, ViewsOk, TimerOk, Take, GiveBack, IsLatest, Listing;
    if step.RefreshLookup? && s.refresher.latest !in s.mux.versions {
      LatestIsNew(s);
      forall v | v in s.prepared ensures Less(v.name, s.refresher.latest) {
        Total(v.name, s.refresher.latest);
      }
    }
  }

  lemma BackfillOnlyNewer(s: State, step: Step)
    requires OnlyNewer(s.refresher, s.prepared) && Enabled(s, step) && OfBackfill(step)
    ensures !After(s, step).panicked ==> OnlyNewer(After(s, step).refresher, After(s, step).prepared)
  {
    hide IsNewestThree, Listing, Latch.Fresh;
  }

  lemma {:induction false} StaysOnlyNewer(states: seq<State>, steps: seq<Step>, i: nat, j: nat)
    requires Run(states, steps) && i <= j < |states| && OnlyNewer(states[i].refresher, states[i].prepared)
    ensures OnlyNewer(states[j].refresher, states[j].prepared)
  {
    hide Inv, After, Enabled, OnlyNewer;
    if i < j {
      StaysOnlyNewer(states, steps, i, j - 1);
      RunInvariant(states, steps, j - 1);
      RunInvariant(states, steps, j);
      NotPanicked(states[j]);
      assert Moves(states, steps, j - 1);
      Frame(states[j - 1], steps[j - 1]);
      if OfRefresh(steps[j - 1]) {
        RefreshOnlyNewer(states[j - 1], steps[j - 1]);
      } else if OfBackfill(steps[j - 1]) {
        BackfillOnlyNewer(states[j - 1], steps[j - 1]);
      }
    }
  }

  lemma NotPanicked(s: State)
    requires Inv(s)
    ensures !s.panicked
  {
  }

  /** Backfill stops at the first version that is ready at once: whatever is prepared after it, at any time
      in the run, is newer than it. */
  lemma BackfillStopsAtReady(states: seq<State>, steps: seq<Step>, i: nat, j: nat)
    requires Run(states, steps) && i < j < |steps| && steps[i] == PrepareVersion(true) && steps[j].PrepareVersion?
    ensures states[i].refresher.Created? && states[j].refresher.Created?
    ensures states[i].refresher.created in states[i].ready
    ensures Less(states[i].refresher.created.name, states[j].refresher.created.name)
  {
    hide Inv, IsNewestThree, IsLatest, Listing, Latch.Fresh, Take, GiveBack;
    assert Moves(states, steps, i) && Moves(states, steps, j);
    RunInvariant(states, steps, i + 1);
    NotPanicked(states[i + 1]);
    StaysOnlyNewer(states, steps, i + 1, j);
    PreparedGrows(states, steps, i + 1, j);
  }

  lemma {:induction false} PreparedGrows(states: seq<State>, steps: seq<Step>, i: nat, j: nat)
    requires Run(states, steps) && i <= j < |states|
    ensures states[i].prepared <= states[j].prepared && states[i].clustered == states[j].clustered
  {
    hide After, Enabled;
    if i < j {
      PreparedGrows(states, steps, i, j - 1);
      assert Moves(states, steps, j - 1);
      Frame(states[j - 1], steps[j - 1]);
    }
  }

  // ---------------------------------------------------------------- waiting for the version just replaced

  ghost predicate WaitsInCluster(s: State) {
    (s.cleaner.Starting? && s.cleaner.wait) || s.cleaner.Arming? || s.cleaner.Timing? ==> s.clustered
  }

  /** Outside a cluster no removal waits for a timer. */
  lemma {:induction false} AloneNothingWaits(states: seq<State>, steps: seq<Step>, i: nat)
    requires Run(states, steps) && i < |states|
    ensures WaitsInCluster(states[i])
    ensures i < |steps| && (steps[i].CleanArm? || steps[i].CleanFire?) ==> states[i].clustered
  {
    hide After, Enabled;
    if i > 0 {
      AloneNothingWaits(states, steps, i - 1);
      assert Moves(states, steps, i - 1);
      Frame(states[i - 1], steps[i - 1]);
      if OfCleanup(steps[i - 1]) {
        CleanupWaitsInCluster(states[i - 1], steps[i - 1]);
      }
    }
    if i < |steps| && (steps[i].CleanArm? || steps[i].CleanFire?) {
      assert Moves(states, steps, i);
      TimerPhases(states[i], steps[i]);
    }
  }

  lemma CleanupWaitsInCluster(s: State, step: Step)
    requires WaitsInCluster(s) && Enabled(s, step) && OfCleanup(step)
    ensures WaitsInCluster(After(s, step))
  {
    hide Take, GiveBack, AfterPrepareVersion, AfterDecide, AfterSweep, IsNewestThree, IsLatest, Listing;
  }

  lemma TimerPhases(s: State, step: Step)
    requires Enabled(s, step)
    ensures step.CleanArm? ==> s.cleaner.Arming?
    ensures step.CleanFire? ==> s.cleaner.Timing?
  {
  }

  /** `v` was the current version, `w` has replaced it, and every removal of `v` so far is one that waits. */
  ghost predicate Replaced(s: State, v: Version, w: Version) {
    && v != w && CurrentVersion(s.mux) == Some(w)
    && v in s.prepared && v !in s.waiting && !InHand(s.upgrader, v)
    && (s.upgrader.Switched? || s.upgrader.Sweeping? ==> s.upgrader.prev == Some(v))
    && Removal(v, false) !in s.queue
    && !(s.cleaner.Starting? && s.cleaner.v == v && !s.cleaner.wait)
  }

  /** Right after the switch nobody removes the version yet. */
  lemma SwitchReplaces(s: State, v: Version)
    requires Inv(s) && PursuedIn(s) && Enabled(s, UpgradeDecide) && CurrentVersion(s.mux) == Some(v)
    requires CurrentVersion(After(s, UpgradeDecide).mux) != Some(v)
    ensures After(s, UpgradeDecide).cleaner == s.cleaner
    ensures !s.cleaner.NoCleanup? ==> s.cleaner.v != v
    ensures Replaced(After(s, UpgradeDecide), v, s.upgrader.v)
  {
    hide UniqueNames, Counted, Readers, ReturnedOk, Unreferenced, RefresherOk, ViewsOk, TimerOk, After, Enabled;
    DecideStep(s);
    Frame(s, UpgradeDecide);
    Irreflexive(v.name);
  }

  lemma DecideReplaced(s: State, v: Version, w: Version)
    requires Inv(s) && PursuedIn(s) && Enabled(s, UpgradeDecide) && Replaced(s, v, w)
    requires CurrentVersion(After(s, UpgradeDecide).mux) == Some(w)
    ensures Replaced(After(s, UpgradeDecide), v, w)
  {
    hide Inv, After, Enabled;
    DecideStep(s);
    Frame(s, UpgradeDecide);
  }

  lemma SweepReplaced(s: State, o: Version, v: Version, w: Version)
    requires Enabled(s, UpgradeSweep(o)) && Replaced(s, v, w)
    ensures Replaced(After(s, UpgradeSweep(o)), v, w)
  {
    hide Take, GiveBack, AfterPrepareVersion, AfterDecide, IsNewestThree, IsLatest, Listing, Less;
  }

  lemma UpgradeReplaced(s: State, step: Step, v: Version, w: Version)
    requires Inv(s) && PursuedIn(s) && Enabled(s, step) && OfUpgrade(step) && Replaced(s, v, w)
    requires CurrentVersion(After(s, step).mux) == Some(w)
    ensures Replaced(After(s, step), v, w)
  {
    hide Inv, Take, GiveBack, AfterDecide, AfterSweep, AfterPrepareVersion, IsNewestThree, IsLatest, Listing;
    match step
    case UpgradeDecide => DecideReplaced(s, v, w);
    case UpgradeSweep(o) => SweepReplaced(s, o, v, w);
    case UpgradeRead => TakeFrame(s, UpgradeReader, s.mux.current);
    case UpgradeRelease => GiveBackFrame(s, UpgradeReader);
    case _ =>
  }

  lemma CleanupReplaced(s: State, step: Step, v: Version, w: Version)
    requires s.clustered && Enabled(s, step) && OfCleanup(step) && Replaced(s, v, w)
    ensures Replaced(After(s, step), v, w)
    ensures var d := After(s, step).cleaner;
            d.Deleting? && d.v == v ==> step.CleanFire? && s.cleaner.v == v
  {
    hide Take, GiveBack, AfterPrepareVersion, AfterDecide, AfterSweep, IsNewestThree, IsLatest, Listing, InHand;
  }

  lemma OtherReplaced(s: State, step: Step, v: Version, w: Version)
    requires Inv(s) && Enabled(s, step) && !OfUpgrade(step) && !OfCleanup(step) && Replaced(s, v, w)
    ensures Replaced(After(s, step), v, w)
  {
    hide Inv, After, Enabled;
    Frame(s, step);
    if step.PrepareVersion? {
      PreparedIsNew(s, step.stop, v);
    }
  }

  lemma PreparedIsNew(s: State, stop: bool, v: Version)
    requires Inv(s) && Enabled(s, PrepareVersion(stop)) && v in s.prepared
    ensures v in After(s, PrepareVersion(stop)).waiting ==> v in s.waiting
  {
    hide UniqueNames, Filed, Counted, Readers, UpgraderOk, QueueOk, CleanerOk, ReturnedOk, Unreferenced, ViewsOk, TimerOk;
  }

  /** The timer of a removal of the version fired between the two moments. */
  ghost predicate FiredBetween(states: seq<State>, steps: seq<Step>, k: nat, i: nat, v: Version)
    requires |states| == |steps| + 1 && i <= |steps|
  {
    exists j :: k < j < i && steps[j].CleanFire? && !states[j].cleaner.NoCleanup? && states[j].cleaner.v == v
  }

  ghost predicate StaysCurrent(states: seq<State>, k: nat, i: nat, w: Version)
    requires i < |states|
  {
    forall j :: k < j <= i ==> CurrentVersion(states[j].mux) == Some(w)
  }

  lemma ReplacedFirst(s: State, step: Step, v: Version, w: Version)
    requires Inv(s) && PursuedIn(s) && Enabled(s, step) && CurrentVersion(s.mux) == Some(v)
    requires v != w && CurrentVersion(After(s, step).mux) == Some(w)
    ensures Replaced(After(s, step), v, w)
    ensures var c := After(s, step).cleaner; c.Deleting? ==> c.v != v
  {
    hide Inv, After, Enabled, Replaced;
    Frame(s, step);
    assert step.UpgradeDecide?;
    SwitchReplaces(s, v);
    SwitchGoesTo(s);
  }

  lemma ReplacedNext(s: State, step: Step, v: Version, w: Version)
    requires Inv(s) && PursuedIn(s) && Enabled(s, step) && s.clustered && Replaced(s, v, w)
    requires CurrentVersion(After(s, step).mux) == Some(w)
    ensures Replaced(After(s, step), v, w)
    ensures var c := After(s, step).cleaner;
            c.Deleting? && c.v == v ==> c == s.cleaner || (step.CleanFire? && s.cleaner.Timing? && s.cleaner.v == v)
  {
    hide Inv, After, Enabled, Replaced;
    Frame(s, step);
    if OfUpgrade(step) {
      UpgradeReplaced(s, step, v, w);
    } else if OfCleanup(step) {
      CleanupReplaced(s, step, v, w);
      TimerPhases(s, step);
    } else {
      OtherReplaced(s, step, v, w);
    }
  }

  lemma {:induction false} ReplacedUntil(states: seq<State>, steps: seq<Step>, k: nat, i: nat, v: Version, w: Version)
    requires Run(states, steps) && k < i < |states| && states[0].clustered
    requires CurrentVersion(states[k].mux) == Some(v) && v != w && StaysCurrent(states, k, i, w)
    ensures Replaced(states[i], v, w)
    ensures states[i].cleaner.Deleting? && states[i].cleaner.v == v ==> FiredBetween(states, steps, k, i, v)
  {
    hide Inv, Pursued, After, Enabled, Replaced;
    RunInvariant(states, steps, i - 1);
    AllPursued(states, steps, i - 1);
    PreparedGrows(states, steps, 0, i - 1);
    assert Moves(states, steps, i - 1);
    if i == k + 1 {
      ReplacedFirst(states[i - 1], steps[i - 1], v, w);
    } else {
      ReplacedUntil(states, steps, k, i - 1, v, w);
      ReplacedNext(states[i - 1], steps[i - 1], v, w);
    }
  }

  lemma SwitchGoesTo(s: State)
    requires Inv(s) && PursuedIn(s) && Enabled(s, UpgradeDecide)
    ensures CurrentVersion(After(s, UpgradeDecide).mux) in {CurrentVersion(s.mux), Some(s.upgrader.v)}
  {
    hide Inv, After, Enabled;
    DecideStep(s);
  }

  /** In a cluster, a version that was current is deleted from the mux only after the timer of its removal
      has fired, provided that the version which replaced it is still current then. */
  lemma PreviousIsWaitedFor(states: seq<State>, steps: seq<Step>, k: nat, i: nat, v: Version, w: Version)
    requires Run(states, steps) && k < i < |steps| && states[0].clustered
    requires CurrentVersion(states[k].mux) == Some(v) && v != w && StaysCurrent(states, k, i, w)
    requires steps[i].CleanDelete? && states[i].cleaner.Deleting? && states[i].cleaner.v == v
    ensures FiredBetween(states, steps, k, i, v)
  {
    hide Inv, After, Enabled;
    ReplacedUntil(states, steps, k, i, v, w);
  }
}
