/** Runs that go on: what backfill and a whole upgrade can do from any reachable state, and with them a run
    in which a version that was current is removed without being waited for, because the version which
    replaced it was replaced too. */
module LifecycleOvertaken {
  import opened Bytes
  import opened Multiplexer
  import opened Lifecycle
  import opened LifecycleInvariant
  import opened LifecycleProgress
  import opened LifecycleWitness
  import Latch

  /** The second run begins as the first one, and no timer fires in the rest of it. */
  ghost predicate Continues(states: seq<State>, steps: seq<Step>, more: seq<State>, taken: seq<Step>) {
    && |states| == |steps| + 1 && |more| == |taken| + 1 && |steps| <= |taken|
    && more[..|states|] == states && taken[..|steps|] == steps
    && forall j :: |steps| <= j < |taken| ==> !taken[j].CleanFire?
  }

  lemma ContinuesOn(a: seq<State>, x: seq<Step>, b: seq<State>, y: seq<Step>, c: seq<State>, z: seq<Step>)
    requires Continues(a, x, b, y) && Continues(b, y, c, z)
    ensures Continues(a, x, c, z)
  {
    assert c[..|a|] == c[..|b|][..|a|];
    assert z[..|x|] == z[..|y|][..|x|];
    forall j | |x| <= j < |z| ensures !z[j].CleanFire? {
      if j < |y| {
        assert z[j] == z[..|y|][j];
      }
    }
  }

  /** One more step. */
  lemma Go(states: seq<State>, steps: seq<Step>, s: State, step: Step) returns (more: seq<State>, taken: seq<Step>, t: State)
    requires Ends(states, steps, s) && Enabled(s, step) && !step.CleanFire?
    ensures Ends(more, taken, t) && t == After(s, step) && Inv(t) && PursuedIn(t)
    ensures more == states + [t] && taken == steps + [step] && Continues(states, steps, more, taken)
  {
    hide Enabled, After, Inv, Pursued, Moves;
    t := After(s, step);
    more, taken := states + [t], steps + [step];
    Extend(states, steps, s, step, t);
    RunInvariant(more, taken, |taken|);
    AllPursued(more, taken, |taken|);
  }

  // ---------------------------------------------------------------- backfill

  const READY_VIEW := Latch.Fresh(0, map[])

  lemma CreateStep(s: State, v: Version, rest: seq<Str>)
    requires !s.panicked && s.refresher == Backfill([v.name] + rest) && v !in s.views
    ensures Enabled(s, Create(v, READY_VIEW))
    ensures After(s, Create(v, READY_VIEW)) == s.(views := s.views[v := READY_VIEW], refresher := Created(v, rest))
  {
    assert ([v.name] + rest)[1..] == rest;
  }

  lemma PrepareStep(s: State, v: Version, rest: seq<Str>)
    requires !s.panicked && s.refresher == Created(v, rest) && v.name !in s.mux.versions
    ensures Enabled(s, PrepareVersion(false))
    ensures var t := After(s, PrepareVersion(false));
            && t == s.(mux := t.mux, refresher := Backfill(rest), prepared := t.prepared, waiting := s.waiting + {v})
            && t.mux.current == s.mux.current && t.mux.versions == s.mux.versions[v.name := Entry(v, false, false)]
  {
  }

  lemma CloseStep(s: State, v: Version)
    requires !s.panicked && v in s.views && s.views[v] == READY_VIEW
    ensures Enabled(s, CloseReady(v)) && After(s, CloseReady(v)) == s.(ready := s.ready + {v})
  {
    Latch.FreshExact(0, map[]);
  }

  /** Backfill prepares the next version, which has no partitions and so is ready. */
  lemma PrepareNext(states: seq<State>, steps: seq<Step>, s: State, v: Version, rest: seq<Str>)
    returns (more: seq<State>, taken: seq<Step>, t: State)
    requires Ends(states, steps, s) && s.refresher == Backfill([v.name] + rest)
    requires v !in s.views && v.name !in s.mux.versions && !s.panicked
    ensures Ends(more, taken, t) && Continues(states, steps, more, taken) && !t.panicked
    ensures t.refresher == Backfill(rest) && t.mux.versions == s.mux.versions[v.name := Entry(v, false, false)]
    ensures t.mux.current == s.mux.current && t.waiting == s.waiting + {v} && t.ready == s.ready + {v}
    ensures t.views.Keys == s.views.Keys + {v}
    ensures t.upgrader == s.upgrader && t.queue == s.queue && t.cleaner == s.cleaner
  {
    hide Ends, Continues, Inv, Pursued, Enabled, After;
    CreateStep(s, v, rest);
    var a, x, s1 := Go(states, steps, s, Create(v, READY_VIEW));
    PrepareStep(s1, v, rest);
    var b, y, s2 := Go(a, x, s1, PrepareVersion(false));
    ContinuesOn(states, steps, a, x, b, y);
    CloseStep(s2, v);
    more, taken, t := Go(b, y, s2, CloseReady(v));
    ContinuesOn(states, steps, b, y, more, taken);
  }

  // ---------------------------------------------------------------- a whole upgrade

  lemma AcquireStep(s: State, v: Version)
    requires !s.panicked && s.upgrader.NoUpgrade? && v in s.waiting && v in s.ready
    ensures Enabled(s, UpgradeAcquire(v))
    ensures After(s, UpgradeAcquire(v)) == s.(waiting := s.waiting - {v}, upgrader := Holding(v))
  {
  }

  /** The same but for the references. */
  ghost predicate Alike(s: State, t: State, upgrader: Upgrader) {
    && t.upgrader == upgrader && t.waiting == s.waiting && t.queue == s.queue && t.cleaner == s.cleaner && t.ready == s.ready
    && t.mux.versions == s.mux.versions && t.mux.current == s.mux.current
  }

  lemma ReadStep(s: State)
    requires !s.panicked && s.upgrader.Holding?
    ensures Enabled(s, UpgradeRead) && Alike(s, After(s, UpgradeRead), Read(s.upgrader.v, CurrentVersion(s.mux)))
  {
    hide Take, GiveBack;
    TakeFrame(s, UpgradeReader, s.mux.current);
  }

  lemma ReleaseStep(s: State)
    requires !s.panicked && s.upgrader.Read?
    ensures Enabled(s, UpgradeRelease) && Alike(s, After(s, UpgradeRelease), Decide(s.upgrader.v, s.upgrader.cur))
  {
    hide Take, GiveBack;
    GiveBackFrame(s, UpgradeReader);
  }

  /** The upgrade looks at the current version. */
  lemma BeginUpgrade(states: seq<State>, steps: seq<Step>, s: State, v: Version)
    returns (more: seq<State>, taken: seq<Step>, t: State)
    requires Ends(states, steps, s) && !s.panicked && s.upgrader.NoUpgrade? && v in s.waiting && v in s.ready
    ensures Ends(more, taken, t) && Continues(states, steps, more, taken) && Inv(t) && PursuedIn(t)
    ensures Alike(s.(waiting := s.waiting - {v}), t, Decide(v, CurrentVersion(s.mux)))
  {
    hide Ends, Continues, Inv, Pursued, Enabled, After;
    AcquireStep(s, v);
    var a, x, s1 := Go(states, steps, s, UpgradeAcquire(v));
    ReadStep(s1);
    var b, y, s2 := Go(a, x, s1, UpgradeRead);
    ContinuesOn(states, steps, a, x, b, y);
    NotPanicked(s2);
    ReleaseStep(s2);
    more, taken, t := Go(b, y, s2, UpgradeRelease);
    ContinuesOn(states, steps, b, y, more, taken);
  }

  lemma SnapshotStep(s: State)
    requires !s.panicked && s.upgrader.Switched?
    ensures Enabled(s, UpgradeSnapshot)
    ensures After(s, UpgradeSnapshot) == s.(upgrader := Sweeping(s.upgrader.v, s.upgrader.prev, All(s.mux)))
  {
  }

  lemma DoneStep(s: State)
    requires !s.panicked && s.upgrader.Sweeping? && s.upgrader.left == {}
    ensures Enabled(s, UpgradeDone) && After(s, UpgradeDone) == s.(upgrader := NoUpgrade)
  {
  }

  lemma CanDecide(s: State)
    requires !s.panicked && s.upgrader.Decide?
    ensures Enabled(s, UpgradeDecide)
  {
  }

  /** The removal that sweeping a version queues is there. */
  ghost predicate Swept(queue: multiset<Removal>, o: Version, v: Version, prev: Option<Version>) {
    && (prev == Some(o) ==> Removal(o, true) in queue)
    && (prev != Some(o) && Less(o.name, v.name) ==> Removal(o, false) in queue)
  }

  lemma SweptStays(queue: multiset<Removal>, longer: multiset<Removal>, o: Version, v: Version, prev: Option<Version>)
    requires queue <= longer && Swept(queue, o, v, prev)
    ensures Swept(longer, o, v, prev)
  {
  }

  /** The rest of the sweep. */
  lemma {:induction false} SweepAll(states: seq<State>, steps: seq<Step>, s: State)
    returns (more: seq<State>, taken: seq<Step>, t: State)
    requires Ends(states, steps, s) && !s.panicked && s.upgrader.Sweeping?
    ensures Ends(more, taken, t) && Continues(states, steps, more, taken) && !t.panicked
    ensures t == s.(queue := t.queue, upgrader := s.upgrader.(left := {})) && s.queue <= t.queue
    ensures forall o :: o in s.upgrader.left ==> Swept(t.queue, o, s.upgrader.v, s.upgrader.prev)
    decreases |s.upgrader.left|
  {
    hide Ends, Inv, Pursued, Less;
    if s.upgrader.left == {} {
      more, taken, t := states, steps, s;
      EndsLength(states, steps, s);
    } else {
      hide Continues;
      var o :| o in s.upgrader.left;
      var a, x, s1 := Go(states, steps, s, UpgradeSweep(o));
      NotPanicked(s1);
      more, taken, t := SweepAll(a, x, s1);
      ContinuesOn(states, steps, a, x, more, taken);
      assert Swept(s1.queue, o, s.upgrader.v, s.upgrader.prev);
      SweptStays(s1.queue, t.queue, o, s.upgrader.v, s.upgrader.prev);
    }
  }

  lemma EndsLength(states: seq<State>, steps: seq<Step>, s: State)
    requires Ends(states, steps, s)
    ensures |states| == |steps| + 1
  {
  }

  /** The upgrade makes the version the current one. */
  lemma SwitchTo(states: seq<State>, steps: seq<Step>, s: State, v: Version)
    returns (more: seq<State>, taken: seq<Step>, t: State)
    requires Ends(states, steps, s) && !s.panicked && s.upgrader.NoUpgrade? && v in s.waiting && v in s.ready
    requires !Below(s.mux.current, v.name)
    ensures Ends(more, taken, t) && Continues(states, steps, more, taken) && !t.panicked
    ensures CurrentVersion(t.mux) == Some(v) && t.upgrader == Sweeping(v, CurrentVersion(s.mux), All(s.mux))
    ensures t.mux.versions == s.mux.versions && t.waiting == s.waiting - {v} && t.ready == s.ready
    ensures t.cleaner == s.cleaner && t.queue == s.queue
  {
    hide Ends, Continues, Inv, Pursued, Enabled, After;
    var a, x, s1 := BeginUpgrade(states, steps, s, v);
    NotPanicked(s1);
    CanDecide(s1);
    DecideStep(s1);
    UpgradeFrame(s1, UpgradeDecide);
    var b, y, s2 := Go(a, x, s1, UpgradeDecide);
    ContinuesOn(states, steps, a, x, b, y);
    NotPanicked(s2);
    SnapshotStep(s2);
    more, taken, t := Go(b, y, s2, UpgradeSnapshot);
    ContinuesOn(states, steps, b, y, more, taken);
  }

  /** From every reachable state in which no upgrade is under way, an upgrade to a ready version that waits
      for it and is not older than the current one can run to its end: then that version is the current
      one, and the removal of every older version, in particular of the one it replaced, is queued. */
  lemma UpgradeRuns(states: seq<State>, steps: seq<Step>, s: State, v: Version)
    returns (more: seq<State>, taken: seq<Step>, t: State)
    requires Ends(states, steps, s) && !s.panicked && s.upgrader.NoUpgrade? && v in s.waiting && v in s.ready
    requires !Below(s.mux.current, v.name)
    ensures Ends(more, taken, t) && Continues(states, steps, more, taken) && !t.panicked
    ensures CurrentVersion(t.mux) == Some(v) && t.upgrader.NoUpgrade? && t.mux.versions == s.mux.versions
    ensures t.waiting == s.waiting - {v} && t.ready == s.ready && t.cleaner == s.cleaner && s.queue <= t.queue
    ensures forall o :: o in All(s.mux) ==> Swept(t.queue, o, v, CurrentVersion(s.mux))
  {
    hide Ends, Continues, Inv, Pursued, Swept, Enabled, After;
    var c, z, s3 := SwitchTo(states, steps, s, v);
    var d, u, s4 := SweepAll(c, z, s3);
    ContinuesOn(states, steps, c, z, d, u);
    DoneStep(s4);
    more, taken, t := Go(d, u, s4, UpgradeDone);
    ContinuesOn(states, steps, d, u, more, taken);
  }

  // ---------------------------------------------------------------- the run

  const V1 := Version(1, [1])
  const V2 := Version(2, [2])
  const V3 := Version(3, [3])

  const START := State(0, true, 0, {[1], [2], [3]}, EMPTY, map[], map[], {}, {}, NotStarted, {}, NoUpgrade,
                       multiset{}, NoCleanup, map[], {}, [], false)

  const NAMES: seq<Str> := [[3], [2], [1]]

  lemma Ordered()
    ensures Less([], [1]) && Less([], [2]) && Less([], [3]) && Less([1], [2]) && Less([2], [3]) && Less([1], [3])
    ensures !Less([2], [1]) && !Less([3], [2])
  {
  }

  lemma CanStart()
    ensures Enabled(START, BackfillStart(NAMES)) && After(START, BackfillStart(NAMES)) == START.(refresher := Backfill(NAMES))
  {
    hide Less;
    Ordered();
    assert Listing(START.backend, []) == {[1], [2], [3]};
  }

  /** What backfill has prepared so far; none is current yet. */
  ghost predicate Backfilled(t: State, versions: set<Version>, todo: seq<Str>) {
    && !t.panicked && t.mux.current == None && t.upgrader.NoUpgrade? && t.cleaner.NoCleanup? && t.refresher == Backfill(todo)
    && t.waiting == t.ready == t.views.Keys == versions
    && t.mux.versions.Keys == (set v | v in versions :: v.name)
    && (forall v :: v in versions ==> v.name in t.mux.versions && t.mux.versions[v.name] == Entry(v, false, false))
  }

  lemma BackfillStarted() returns (states: seq<State>, steps: seq<Step>, t: State)
    ensures Ends(states, steps, t) && Continues([START], [], states, steps) && Backfilled(t, {}, NAMES)
  {
    hide Enabled, After, Moves;
    assert Ends([START], [], START);
    hide Ends, Continues, Inv, Pursued;
    CanStart();
    states, steps, t := Go([START], [], START, BackfillStart(NAMES));
  }

  lemma BackfillOne(states: seq<State>, steps: seq<Step>, s: State, versions: set<Version>, v: Version, rest: seq<Str>)
    returns (more: seq<State>, taken: seq<Step>, t: State)
    requires Ends(states, steps, s) && Continues([START], [], states, steps) && Backfilled(s, versions, [v.name] + rest)
    requires forall w :: w in versions ==> w.name != v.name
    ensures Ends(more, taken, t) && Continues([START], [], more, taken) && Backfilled(t, versions + {v}, rest)
  {
    hide Ends, Continues;
    more, taken, t := PrepareNext(states, steps, s, v, rest);
    ContinuesOn([START], [], states, steps, more, taken);
    assert (set w | w in versions + {v} :: w.name) == (set w | w in versions :: w.name) + {v.name};
  }

  /** Three ready versions are prepared, and none is current yet. */
  lemma ThreePrepared() returns (states: seq<State>, steps: seq<Step>, t: State)
    ensures Ends(states, steps, t) && Continues([START], [], states, steps) && Backfilled(t, {V1, V2, V3}, [])
  {
    hide Ends, Continues, Backfilled;
    var a, x, s1 := BackfillStarted();
    assert NAMES == [[3]] + [[2], [1]];
    var b, y, s2 := BackfillOne(a, x, s1, {}, V3, [[2], [1]]);
    assert [[2], [1]] == [[2]] + [[1]];
    var c, z, s3 := BackfillOne(b, y, s2, {} + {V3}, V2, [[1]]);
    assert [[1]] == [[1]] + [];
    states, steps, t := BackfillOne(c, z, s3, {} + {V3} + {V2}, V1, []);
    assert {} + {V3} + {V2} + {V1} == {V1, V2, V3};
  }

  /** The first, the second and the third version become current in turn; `k` is a moment at which the
      first one is. */
  lemma ThirdCurrent() returns (states: seq<State>, steps: seq<Step>, t: State, k: nat)
    ensures Ends(states, steps, t) && Continues([START], [], states, steps) && !t.panicked
    ensures k < |steps| < |states| && CurrentVersion(states[k].mux) == Some(V1)
    ensures t.cleaner.NoCleanup? && Removal(V1, false) in t.queue && Find(t.mux, [1]) == Some(Entry(V1, false, false))
  {
    hide Ends, Continues, Swept, Less;
    Ordered();
    var a, x, s1 := ThreePrepared();
    var b, y, s2 := UpgradeRuns(a, x, s1, V1);
    ContinuesOn([START], [], a, x, b, y);
    var c, z, s3 := UpgradeRuns(b, y, s2, V2);
    ContinuesOn([START], [], b, y, c, z);
    states, steps, t := UpgradeRuns(c, z, s3, V3);
    ContinuesOn([START], [], c, z, states, steps);
    assert s3.mux.versions[[1]].version == V1;
    assert V1 in All(s3.mux);
    QueuedOutright(t.queue);
    ContinuesOn(b, y, c, z, states, steps);
    k := |y|;
    StillThere(b, y, s2, states, steps, t);
  }

  lemma StillThere(states: seq<State>, steps: seq<Step>, s: State, more: seq<State>, taken: seq<Step>, t: State)
    requires Ends(states, steps, s) && Continues(states, steps, more, taken) && Ends(more, taken, t)
    requires CurrentVersion(s.mux) != CurrentVersion(t.mux)
    ensures |steps| < |taken| < |more| && more[|steps|] == s
  {
    assert more[|steps|] == more[..|states|][|steps|];
  }

  lemma AcquireOutright(s: State, v: Version)
    requires !s.panicked && s.cleaner.NoCleanup? && Removal(v, false) in s.queue
    ensures Enabled(s, CleanAcquire(Removal(v, false)))
    ensures var t := After(s, CleanAcquire(Removal(v, false)));
            t.cleaner == Starting(v, false) && t.mux == s.mux && !t.panicked
  {
  }

  lemma LookupOutright(s: State, v: Version)
    requires !s.panicked && s.cleaner == Starting(v, false) && RemoveLookup(s.mux, v).Some?
    ensures Enabled(s, CleanLookup)
    ensures var t := After(s, CleanLookup);
            t.cleaner.Deleting? && t.cleaner.v == v && Enabled(t, CleanDelete)
  {
  }

  /** A removal that does not wait deletes its version without further ado. */
  lemma RemoveOutright(states: seq<State>, steps: seq<Step>, s: State, v: Version)
    returns (more: seq<State>, taken: seq<Step>, t: State)
    requires Ends(states, steps, s) && !s.panicked && s.cleaner.NoCleanup?
    requires Removal(v, false) in s.queue && RemoveLookup(s.mux, v).Some?
    ensures Ends(more, taken, t) && Continues(states, steps, more, taken)
    ensures t.cleaner.Deleting? && t.cleaner.v == v && Enabled(t, CleanDelete)
  {
    hide Ends, Continues, Inv, Pursued, Enabled, After;
    AcquireOutright(s, v);
    var a, x, s1 := Go(states, steps, s, CleanAcquire(Removal(v, false)));
    LookupOutright(s1, v);
    more, taken, t := Go(a, x, s1, CleanLookup);
    ContinuesOn(states, steps, a, x, more, taken);
  }

  /** Being waited for is not promised to a version that was replaced twice: a run in a cluster in which
      the first version is current, is then replaced by the second and that by the third, and is deleted
      from the mux without any timer having fired. */
  lemma RemovedWithoutWaiting() returns (states: seq<State>, steps: seq<Step>, k: nat, i: nat)
    ensures Run(states, steps) && states[0].clustered && k < i < |steps|
    ensures CurrentVersion(states[k].mux) == Some(V1)
    ensures steps[i].CleanDelete? && states[i].cleaner.Deleting? && states[i].cleaner.v == V1
    ensures forall j :: 0 <= j < |steps| ==> !steps[j].CleanFire?
  {
    hide Enabled, After, Run, Inv, Pursued;
    var a, x, s1, n := ThirdCurrent();
    var b, y, s2 := RemoveOutright(a, x, s1, V1);
    ContinuesOn([START], [], a, x, b, y);
    var c, z, s3 := Go(b, y, s2, CleanDelete);
    ContinuesOn([START], [], b, y, c, z);
    ContinuesOn(a, x, b, y, c, z);
    states, steps, k, i := c, z, n, |y|;
    assert states[0] == states[..1][0];
    assert states[k] == states[..|a|][k];
    LastState(b, y, s2);
  }

  lemma LastState(states: seq<State>, steps: seq<Step>, s: State)
    requires Ends(states, steps, s)
    ensures |states| == |steps| + 1 && states[|steps|] == s
  {
  }

  lemma QueuedOutright(queue: multiset<Removal>)
    requires Swept(queue, V1, V3, Some(V2))
    ensures Removal(V1, false) in queue
  {
    Ordered();
  }
}
