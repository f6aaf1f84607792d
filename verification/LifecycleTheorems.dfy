/** What holds over every run of the version lifecycle. */
module LifecycleTheorems {
  import opened Bytes
  import opened Multiplexer
  import opened Lifecycle
  import opened LifecycleInvariant
  import Latch

  // ---------------------------------------------------------------- safety of closing

  /** No step of any run panics: not `prepare`, not `mustGet`, not a wait group below zero. */
  lemma NeverPanics(states: seq<State>, steps: seq<Step>, i: nat)
    requires Run(states, steps) && i < |states|
    ensures !states[i].panicked
  {
    RunInvariant(states, steps, i);
  }

  lemma {:induction false} ClosedStays(states: seq<State>, steps: seq<Step>, i: nat, j: nat)
    requires Run(states, steps) && i <= j < |states|
    ensures states[i].cancelled <= states[j].cancelled
  {
    hide After, Enabled;
    if i < j {
      ClosedStays(states, steps, i, j - 1);
      assert Moves(states, steps, j - 1);
      Frame(states[j - 1], steps[j - 1]);
    }
  }

  /** From the moment that a version is closed and deleted on, no client holds it, it is not in the mux,
      and it is strictly older than the current version. */
  lemma ClosedVersionsAreUnreferenced(states: seq<State>, steps: seq<Step>, i: nat, j: nat, v: Version)
    requires Run(states, steps) && i <= j < |states| && v in states[i].cancelled
    ensures forall c :: c in states[j].refs ==> states[j].refs[c] != v
    ensures v.name !in states[j].mux.versions && Below(states[j].mux.current, v.name)
  {
    ClosedStays(states, steps, i, j);
    RunInvariant(states, steps, j);
    var s := states[j];
    hide UniqueNames, Readers, UpgraderOk, QueueOk, CleanerOk, RefresherOk, ViewsOk, TimerOk;
    assert v in s.returned;
    assert Holders(s.refs, v) == {};
    forall c | c in s.refs ensures s.refs[c] != v {
      assert c !in Holders(s.refs, v);
    }
  }

  lemma ReturnedAtMostOnce(states: seq<State>, steps: seq<Step>, i: nat, a: nat, b: nat)
    requires Run(states, steps) && i < |states| && a < b < |states[i].returned|
    ensures states[i].returned[a] != states[i].returned[b]
  {
    RunInvariant(states, steps, i);
  }

  // ---------------------------------------------------------------- rolling forward

  lemma StepRollsForward(s: State, step: Step)
    requires Inv(s) && Enabled(s, step) && s.mux.current.Some?
    ensures var t := After(s, step);
            t.mux.current.Some? && !Less(t.mux.current.value.version.name, s.mux.current.value.version.name)
  {
    hide Inv, After;
    Irreflexive(s.mux.current.value.version.name);
    Frame(s, step);
    if step.UpgradeDecide? {
      DecideRollsForward(s);
    }
  }

  lemma DecideRollsForward(s: State)
    requires Inv(s) && Enabled(s, UpgradeDecide) && s.mux.current.Some?
    ensures var t := After(s, UpgradeDecide);
            t.mux.current.Some? && !Less(t.mux.current.value.version.name, s.mux.current.value.version.name)
  {
    hide UniqueNames, Filed, Counted, Readers, QueueOk, CleanerOk, ReturnedOk, Unreferenced, RefresherOk, ViewsOk, TimerOk;
    Irreflexive(s.mux.current.value.version.name);
  }

  /** The current version's name never decreases, and there is always one once there was. */
  lemma {:induction false} CurrentRollsForward(states: seq<State>, steps: seq<Step>, i: nat, j: nat)
    requires Run(states, steps) && i <= j < |states| && states[i].mux.current.Some?
    ensures states[j].mux.current.Some?
    ensures !Less(states[j].mux.current.value.version.name, states[i].mux.current.value.version.name)
  {
    hide Inv, After, Enabled;
    var start := states[i].mux.current.value.version.name;
    if i == j {
      Irreflexive(start);
    } else {
      CurrentRollsForward(states, steps, i, j - 1);
      RunInvariant(states, steps, j - 1);
      assert Moves(states, steps, j - 1);
      StepRollsForward(states[j - 1], steps[j - 1]);
      var before, now := states[j - 1].mux.current.value.version.name, states[j].mux.current.value.version.name;
      if Less(now, start) {
        LessThenAtMost(now, start, before);
      }
    }
  }

  lemma PreparedGrows(s: State, step: Step)
    requires Enabled(s, step)
    ensures s.prepared <= After(s, step).prepared
  {
    hide After, Enabled;
    Frame(s, step);
  }

  lemma {:induction false} PreparedStays(states: seq<State>, steps: seq<Step>, i: nat, j: nat)
    requires Run(states, steps) && i <= j < |states|
    ensures states[i].prepared <= states[j].prepared
  {
    if i < j {
      PreparedStays(states, steps, i, j - 1);
      assert Moves(states, steps, j - 1);
      PreparedGrows(states[j - 1], steps[j - 1]);
    }
  }

  lemma PreparesAFreshName(s: State, stop: bool)
    requires Inv(s) && Enabled(s, PrepareVersion(stop))
    ensures s.refresher.Created? && NotPrepared(s.prepared, s.refresher.created.name)
    ensures s.refresher.created in After(s, PrepareVersion(stop)).prepared
  {
    hide UniqueNames, Filed, Counted, Readers, UpgraderOk, QueueOk, CleanerOk, ReturnedOk, Unreferenced, ViewsOk, TimerOk;
    FiledAfterPrepare(s.mux.versions, s.mux.current, s.prepared, s.refresher.created);
  }

  /** A name is prepared at most once in a run, whether or not it was removed in between. */
  lemma NamesArePreparedOnce(states: seq<State>, steps: seq<Step>, i: nat, j: nat)
    requires Run(states, steps) && i < j < |steps|
    requires steps[i].PrepareVersion? && steps[j].PrepareVersion?
    ensures states[i].refresher.Created? && states[j].refresher.Created?
    ensures states[i].refresher.created.name != states[j].refresher.created.name
  {
    hide Inv, Enabled, After;
    assert Moves(states, steps, i) && Moves(states, steps, j);
    RunInvariant(states, steps, i);
    RunInvariant(states, steps, j);
    PreparesAFreshName(states[i], steps[i].stop);
    PreparesAFreshName(states[j], steps[j].stop);
    PreparedStays(states, steps, i + 1, j);
  }

  // ---------------------------------------------------------------- the count after deletion

  /** The version was prepared and is out of the map. */
  predicate Out(s: State, v: Version) {
    v in s.prepared && v.name !in s.mux.versions
  }

  lemma TakeLeavesOut(s: State, c: Client, e: Option<Entry>, v: Version)
    requires Inv(s) && Out(s, v)
    requires e == s.mux.current || exists n :: e == Find(s.mux, n)
    ensures Take(s, c, e).mux.versions == s.mux.versions && Take(s, c, e).prepared == s.prepared
    ensures Count(Take(s, c, e).mux, v) == Count(s.mux, v)
  {
    hide Inv;
    if e.Some? {
      Handed(s, e.value);
    }
  }

  lemma GiveBackLeavesOut(s: State, c: Client, v: Version)
    requires Inv(s) && Out(s, v)
    ensures GiveBack(s, c).mux.versions == s.mux.versions && GiveBack(s, c).prepared == s.prepared
    ensures Count(GiveBack(s, c).mux, v) == Count(s.mux, v)
  {
    hide Inv;
    if c in s.refs {
      HeldIsFiled(s, c);
    }
  }

  lemma PrepareLeavesOut(s: State, stop: bool, v: Version)
    requires Inv(s) && Out(s, v) && Enabled(s, PrepareVersion(stop))
    ensures Out(After(s, PrepareVersion(stop)), v)
    ensures Count(After(s, PrepareVersion(stop)).mux, v) == Count(s.mux, v)
  {
    hide Inv;
    PreparesAFreshName(s, stop);
  }

  lemma ArmLeavesOut(s: State, v: Version)
    requires Inv(s) && Out(s, v) && Enabled(s, CleanArm)
    ensures Out(After(s, CleanArm), v) && Count(After(s, CleanArm).mux, v) == Count(s.mux, v)
  {
    hide UniqueNames, Filed, Counted, Readers, UpgraderOk, QueueOk, ReturnedOk, Unreferenced, RefresherOk, ViewsOk, TimerOk;
  }

  lemma ReferencesLeaveOut(s: State, step: Step, v: Version)
    requires Inv(s) && Enabled(s, step) && Out(s, v)
    requires OfRequest(step) || OfRefresh(step) || step.UpgradeRead? || step.UpgradeRelease?
    ensures Out(After(s, step), v) && Count(After(s, step).mux, v) == Count(s.mux, v)
  {
    hide Inv, Take, GiveBack, IsLatest, Listing;
    match step
    case RequestCurrent(id) => TakeLeavesOut(s, Request(id), s.mux.current, v);
    case RequestVersion(id, name) => TakeLeavesOut(s, Request(id), Find(s.mux, name), v);
    case RequestDone(id) => GiveBackLeavesOut(s, Request(id), v);
    case RefreshRead => TakeLeavesOut(s, RefreshReader, s.mux.current, v);
    case RefreshRelease => GiveBackLeavesOut(s, RefreshReader, v);
    case RefreshLookup => TakeLeavesOut(s, RefreshReader, Find(s.mux, s.refresher.latest), v);
    case RefreshFound => GiveBackLeavesOut(s, RefreshReader, v);
    case UpgradeRead => TakeLeavesOut(s, UpgradeReader, s.mux.current, v);
    case UpgradeRelease => GiveBackLeavesOut(s, UpgradeReader, v);
    case _ =>
  }

  /** No step touches the count of a version that is out of the map, or puts its name back. */
  lemma CountIsFrozen(s: State, step: Step, v: Version)
    requires Inv(s) && Enabled(s, step) && Out(s, v)
    ensures Out(After(s, step), v) && Count(After(s, step).mux, v) == Count(s.mux, v)
  {
    hide Inv, After, Enabled;
    Frame(s, step);
    if OfWorld(step) {
      WorldFrame(s, step);
    } else if step.PrepareVersion? {
      PrepareLeavesOut(s, step.stop, v);
    } else if OfBackfill(step) {
      BackfillFrame(s, step);
    } else if OfRequest(step) || OfRefresh(step) || step.UpgradeRead? || step.UpgradeRelease? {
      ReferencesLeaveOut(s, step, v);
    } else if OfUpgrade(step) {
      UpgradeFrame(s, step);
    } else if step.CleanArm? {
      ArmLeavesOut(s, v);
    } else {
      CleanupFrame(s, step);
    }
  }

  lemma {:induction false} CountStaysFrozen(states: seq<State>, steps: seq<Step>, i: nat, j: nat, v: Version)
    requires Run(states, steps) && i <= j < |states| && Out(states[i], v)
    ensures Out(states[j], v) && Count(states[j].mux, v) == Count(states[i].mux, v)
  {
    hide Inv, Enabled, After;
    if i < j {
      CountStaysFrozen(states, steps, i, j - 1, v);
      RunInvariant(states, steps, j - 1);
      assert Moves(states, steps, j - 1);
      CountIsFrozen(states[j - 1], steps[j - 1], v);
    }
  }

  lemma DeleteStep(s: State)
    requires Inv(s) && Enabled(s, CleanDelete)
    ensures s.cleaner.Deleting?
    ensures var v, t := s.cleaner.v, After(s, CleanDelete);
            && Out(t, v) && WaitsFor(t, v) && v !in t.returned
            && Count(t.mux, v) == |Holders(s.refs, v)|
  {
    hide UniqueNames, Readers, UpgraderOk, QueueOk, Unreferenced, RefresherOk, ViewsOk, TimerOk;
  }

  /** From the delete step on, the count is the number of references outstanding at that step. */
  lemma DeleteFreezesCount(states: seq<State>, steps: seq<Step>, i: nat, j: nat)
    requires Run(states, steps) && i < j < |states| && steps[i].CleanDelete?
    ensures states[i].cleaner.Deleting?
    ensures Count(states[j].mux, states[i].cleaner.v) == |Holders(states[i].refs, states[i].cleaner.v)|
  {
    hide Inv, Enabled, After;
    assert Moves(states, steps, i);
    RunInvariant(states, steps, i);
    DeleteStep(states[i]);
    CountStaysFrozen(states, steps, i + 1, j, states[i].cleaner.v);
  }

  predicate WaitsFor(s: State, v: Version) {
    s.cleaner.Waiting? && s.cleaner.v == v && s.cleaner.e.version == v
  }

  lemma ReturnEndsWait(s: State, v: Version)
    requires Enabled(s, CleanReturn) && (WaitsFor(s, v) || v in s.returned)
    ensures v in After(s, CleanReturn).returned
    ensures v !in s.returned && WaitsFor(s, v) ==> Count(s.mux, v) == 0
  {
    hide IsNewestThree, IsLatest, Listing, Latch.Fresh, Latch.Apply, Take, GiveBack, AfterPrepareVersion, AfterDecide, AfterSweep, Find;
  }

  lemma OthersLeaveWait(s: State, step: Step, v: Version)
    requires Enabled(s, step) && OfCleanup(step) && !step.CleanReturn?
    ensures !WaitsFor(s, v) && After(s, step).returned == s.returned
  {
    hide IsNewestThree, IsLatest, Listing, Latch.Fresh, Latch.Apply, Take, GiveBack, AfterPrepareVersion, AfterDecide, AfterSweep, Find;
  }

  lemma CleanupWaits(s: State, step: Step, v: Version)
    requires Enabled(s, step) && OfCleanup(step) && (WaitsFor(s, v) || v in s.returned)
    ensures WaitsFor(After(s, step), v) || v in After(s, step).returned
    ensures v in s.returned ==> v in After(s, step).returned
    ensures v !in s.returned && v in After(s, step).returned && WaitsFor(s, v) ==> Count(s.mux, v) == 0
    ensures WaitsFor(s, v) && !step.CleanReturn? ==> WaitsFor(After(s, step), v)
  {
    hide Enabled, After;
    if step.CleanReturn? {
      ReturnEndsWait(s, v);
    } else {
      OthersLeaveWait(s, step, v);
    }
  }

  lemma WaitingUntilReturn(s: State, step: Step, v: Version)
    requires Enabled(s, step) && (WaitsFor(s, v) || v in s.returned)
    ensures WaitsFor(After(s, step), v) || v in After(s, step).returned
    ensures v in s.returned ==> v in After(s, step).returned
    ensures v !in s.returned && v in After(s, step).returned && WaitsFor(s, v) ==> Count(s.mux, v) == 0
    ensures WaitsFor(s, v) && !step.CleanReturn? ==> WaitsFor(After(s, step), v)
  {
    hide Enabled;
    if OfCleanup(step) {
      CleanupWaits(s, step, v);
    } else {
      hide After;
      Frame(s, step);
    }
  }

  lemma CanReturnIff(s: State)
    requires !s.panicked
    ensures Enabled(s, CleanReturn) <==> s.cleaner.Waiting? && Count(s.mux, s.cleaner.e.version) == 0
  {
  }

  /** The documented wait for zero, exactly: if no reference was outstanding when the version was
      deleted from the map then at every later moment `remove` has returned it or can return it right
      away; otherwise `remove` never returns, and cleanup stays blocked behind it for the whole rest
      of the run, even after every client has released. */
  lemma {:induction false} RemoveReturnsIffNoneOutstanding(states: seq<State>, steps: seq<Step>, i: nat, j: nat)
    requires Run(states, steps) && i < j < |states| && steps[i].CleanDelete?
    ensures states[i].cleaner.Deleting?
    ensures var v := states[i].cleaner.v;
            if Holders(states[i].refs, v) == {}
            then v in states[j].returned || (WaitsFor(states[j], v) && Enabled(states[j], CleanReturn))
            else WaitsFor(states[j], v) && !Enabled(states[j], CleanReturn) && v !in states[j].returned
  {
    hide Inv, Enabled, After;
    assert Moves(states, steps, i);
    RunInvariant(states, steps, i);
    DeleteStep(states[i]);
    var v := states[i].cleaner.v;
    DeleteFreezesCount(states, steps, i, j);
    NeverPanics(states, steps, j);
    CanReturnIff(states[j]);
    if j > i + 1 {
      RemoveReturnsIffNoneOutstanding(states, steps, i, j - 1);
      DeleteFreezesCount(states, steps, i, j - 1);
      assert Moves(states, steps, j - 1);
      WaitingUntilReturn(states[j - 1], steps[j - 1], v);
    }
  }

  // ---------------------------------------------------------------- coverage before the switch

  /** A version only becomes current through `ready`, and `ready` was not closed by `cancel`. */
  lemma SwitchNeedsLatch(s: State, step: Step)
    requires Inv(s) && Enabled(s, step)
    requires After(s, step).mux.current != s.mux.current
    ensures step.UpgradeDecide?
    ensures var v := s.upgrader.v;
            CurrentVersion(After(s, step).mux) == Some(v) && v !in s.cancelled && v in s.views && s.views[v].readyClosed
  {
    hide Inv, IsNewestThree, IsLatest, Listing;
    OnlyDecideSwitches(s, step);
    DecideNeedsLatch(s);
  }

  lemma OnlyDecideSwitches(s: State, step: Step)
    requires Enabled(s, step)
    ensures !step.UpgradeDecide? ==> After(s, step).mux.current == s.mux.current
  {
    hide After, Enabled;
    Frame(s, step);
  }

  lemma DecideNeedsLatch(s: State)
    requires Inv(s) && Enabled(s, UpgradeDecide)
    ensures !Below(s.mux.current, s.upgrader.v.name) ==>
              var v := s.upgrader.v;
              v !in s.cancelled && v in s.views && s.views[v].readyClosed
    ensures CurrentVersion(s.mux) == s.upgrader.cur
  {
    hide UniqueNames, Filed, Counted, Readers, QueueOk, CleanerOk, Unreferenced, RefresherOk, TimerOk;
  }

  lemma ViewsStep(s: State, step: Step)
    requires Enabled(s, step)
    ensures !step.PartitionUpdate? && !step.Create? ==> After(s, step).views == s.views
  {
    hide After, Enabled;
    Frame(s, step);
  }

  lemma LatchStep(s: State, step: Step, v: Version)
    requires Enabled(s, step) && v in After(s, step).views && After(s, step).views[v].readyClosed
    ensures (v in s.views && s.views[v].readyClosed) || Latch.Covered(After(s, step).views[v])
  {
    hide IsNewestThree, IsLatest, Listing, Latch.Apply, Latch.Covered, Latch.Fresh, AfterDecide, AfterSweep, AfterPrepareVersion;
    ViewsStep(s, step);
    match step
    case PartitionUpdate(w, u) =>
      Latch.ApplyExact(s.views[w], u);
    case Create(w, view) =>
      var num, remote :| view == Latch.Fresh(num, remote);
      Latch.FreshExact(num, remote);
    case _ =>
  }

  ghost predicate CoveredAt(states: seq<State>, k: nat, v: Version)
    requires k < |states|
  {
    v in states[k].views && Latch.Covered(states[k].views[v])
  }

  /** A closed latch was covered at some moment up to now. */
  lemma {:induction false} LatchWasCovered(states: seq<State>, steps: seq<Step>, i: nat, v: Version)
    requires Run(states, steps) && i < |states|
    requires v in states[i].views && states[i].views[v].readyClosed
    ensures exists k: nat :: k <= i && CoveredAt(states, k, v)
  {
    hide Enabled, After, Latch.Covered;
    if i > 0 {
      assert Moves(states, steps, i - 1);
      LatchStep(states[i - 1], steps[i - 1], v);
      if Latch.Covered(states[i].views[v]) {
        assert CoveredAt(states, i, v);
      } else {
        LatchWasCovered(states, steps, i - 1, v);
      }
    }
  }

  /** If a version is current, then at some earlier moment of the run each of its partitions was
      local or listed by a peer. */
  lemma {:induction false} CurrentWasCovered(states: seq<State>, steps: seq<Step>, i: nat)
    requires Run(states, steps) && i < |states| && states[i].mux.current.Some?
    ensures exists k: nat :: k < i && CoveredAt(states, k, states[i].mux.current.value.version)
  {
    hide Inv, Enabled, After;
    if i > 0 {
      assert Moves(states, steps, i - 1);
      if states[i].mux.current == states[i - 1].mux.current {
        CurrentWasCovered(states, steps, i - 1);
      } else {
        RunInvariant(states, steps, i - 1);
        SwitchNeedsLatch(states[i - 1], steps[i - 1]);
        LatchWasCovered(states, steps, i - 1, states[i].mux.current.value.version);
      }
    }
  }

  /** A version closed through `cancel` is never switched to afterwards. */
  lemma CancelledNeverCurrent(states: seq<State>, steps: seq<Step>, i: nat, v: Version)
    requires Run(states, steps) && i < |states| && v in states[i].cancelled
    ensures CurrentVersion(states[i].mux) != Some(v)
  {
    RunInvariant(states, steps, i);
    Irreflexive(v.name);
  }

  // ---------------------------------------------------------------- the removal timer

  /** `lastUse` is at least the time of every hand-out. */
  predicate UsedSince(s: State, v: Version, t: nat) {
    v in s.lastUse && s.lastUse[v] >= t
  }

  predicate HandsOut(s: State, t: State, c: Client, v: Version) {
    c !in s.refs && c in t.refs && t.refs[c] == v
  }

  lemma TakeIsUse(s: State, c: Client, e: Option<Entry>, v: Version, t: nat)
    requires t <= s.now
    ensures var r := Take(s, c, e);
            && r.now == s.now && r.timeout == s.timeout
            && (UsedSince(s, v, t) ==> UsedSince(r, v, t))
            && (forall d :: d in r.refs && d !in s.refs && r.refs[d] == v ==> UsedSince(r, v, s.now))
  {
  }

  lemma GiveBackIsNoUse(s: State, c: Client)
    ensures var r := GiveBack(s, c);
            && r.now == s.now && r.timeout == s.timeout && r.lastUse == s.lastUse
            && (forall d :: d in r.refs ==> d in s.refs)
  {
  }

  lemma CleanupUse(s: State, step: Step, v: Version, t: nat)
    requires Enabled(s, step) && OfCleanup(step) && t <= s.now
    ensures UsedSince(s, v, t) ==> UsedSince(After(s, step), v, t)
    ensures forall c :: HandsOut(s, After(s, step), c, v) ==> UsedSince(After(s, step), v, s.now)
  {
    CleanupFrame(s, step);
  }

  lemma UpgradeUse(s: State, step: Step, v: Version, t: nat)
    requires Enabled(s, step) && OfUpgrade(step) && t <= s.now
    ensures UsedSince(s, v, t) ==> UsedSince(After(s, step), v, t)
    ensures forall c :: HandsOut(s, After(s, step), c, v) ==> UsedSince(After(s, step), v, s.now)
  {
    hide Take, GiveBack, AfterDecide, AfterSweep;
    match step
    case UpgradeRead => TakeIsUse(s, UpgradeReader, s.mux.current, v, t);
    case UpgradeRelease => GiveBackIsNoUse(s, UpgradeReader);
    case _ => UpgradeFrame(s, step);
  }

  lemma RequestUse(s: State, step: Step, v: Version, t: nat)
    requires Enabled(s, step) && OfRequest(step) && t <= s.now
    ensures UsedSince(s, v, t) ==> UsedSince(After(s, step), v, t)
    ensures forall c :: HandsOut(s, After(s, step), c, v) ==> UsedSince(After(s, step), v, s.now)
  {
    hide Take, GiveBack;
    match step
    case RequestCurrent(id) => TakeIsUse(s, Request(id), s.mux.current, v, t);
    case RequestVersion(id, name) => TakeIsUse(s, Request(id), Find(s.mux, name), v, t);
    case RequestDone(id) => GiveBackIsNoUse(s, Request(id));
  }

  lemma RefreshUse(s: State, step: Step, v: Version, t: nat)
    requires Enabled(s, step) && OfRefresh(step) && t <= s.now
    ensures UsedSince(s, v, t) ==> UsedSince(After(s, step), v, t)
    ensures forall c :: HandsOut(s, After(s, step), c, v) ==> UsedSince(After(s, step), v, s.now)
  {
    hide Take, GiveBack, IsLatest, Listing;
    match step
    case RefreshRead => TakeIsUse(s, RefreshReader, s.mux.current, v, t);
    case RefreshRelease => GiveBackIsNoUse(s, RefreshReader);
    case RefreshLookup => TakeIsUse(s, RefreshReader, Find(s.mux, s.refresher.latest), v, t);
    case RefreshFound => GiveBackIsNoUse(s, RefreshReader);
    case _ =>
  }

  lemma UseStep(s: State, step: Step, v: Version, t: nat)
    requires Enabled(s, step) && t <= s.now
    ensures After(s, step).now >= s.now && After(s, step).timeout == s.timeout
    ensures UsedSince(s, v, t) ==> UsedSince(After(s, step), v, t)
    ensures forall c :: HandsOut(s, After(s, step), c, v) ==> UsedSince(After(s, step), v, s.now)
  {
    hide After, Enabled, Take, GiveBack;
    Frame(s, step);
    if OfWorld(step) {
      WorldFrame(s, step);
    } else if OfBackfill(step) {
      BackfillFrame(s, step);
    } else if OfCleanup(step) {
      CleanupUse(s, step, v, t);
    } else if OfUpgrade(step) {
      UpgradeUse(s, step, v, t);
    } else if OfRequest(step) {
      RequestUse(s, step, v, t);
    } else {
      RefreshUse(s, step, v, t);
    }
  }

  lemma {:induction false} UseIsRemembered(states: seq<State>, steps: seq<Step>, k: nat, i: nat, c: Client, v: Version)
    requires Run(states, steps) && k < i < |states| && HandsOut(states[k], states[k + 1], c, v)
    ensures UsedSince(states[i], v, states[k].now) && states[k].now <= states[i].now
    ensures states[i].timeout == states[k].timeout
  {
    hide After, Enabled;
    assert Moves(states, steps, i - 1);
    if i == k + 1 {
      UseStep(states[k], steps[k], v, states[k].now);
    } else {
      UseIsRemembered(states, steps, k, i - 1, c, v);
      UseStep(states[i - 1], steps[i - 1], v, states[k].now);
    }
  }

  /** When the timer of a removal fires, every reference to the version was handed out at least a full
      timeout ago. */
  lemma UnusedForTheWholeTimeout(states: seq<State>, steps: seq<Step>, k: nat, i: nat, c: Client)
    requires Run(states, steps) && k < i < |steps| && steps[i].CleanFire?
    requires states[i].cleaner.Timing? && HandsOut(states[k], states[k + 1], c, states[i].cleaner.v)
    ensures states[k].now + states[i].timeout <= states[i].now
  {
    assert Moves(states, steps, i);
    RunInvariant(states, steps, i);
    UseIsRemembered(states, steps, k, i, c, states[i].cleaner.v);
  }
}
