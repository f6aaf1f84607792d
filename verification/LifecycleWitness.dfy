/** A run in which a reference is outstanding when its version is deleted from the mux: the
    hypothesis of the blocking half of the removal theorem is met by a real run. */
module LifecycleWitness {
  import opened Bytes
  import opened Multiplexer
  import opened Lifecycle
  import opened LifecycleInvariant
  import Latch

  const OLD := Version(1, [1])
  const NEW := Version(0, [2])
  const OLD_VIEW := Latch.Fresh(1, map[])
  const NEW_VIEW := Latch.Fresh(0, map[])
  const OLD_ENTRY := Entry(OLD, false, false)
  const NEW_ENTRY := Entry(NEW, false, false)

  /** Two versions are published; backfill prepares both, newest first. */
  const S0 := State(0, false, 0, {[1], [2]}, EMPTY, map[], map[], {}, {}, NotStarted, {}, NoUpgrade,
                    multiset{}, NoCleanup, map[], {}, [], false)
  const S1 := S0.(refresher := Backfill([[2], [1]]))
  const S2 := S1.(views := map[NEW := NEW_VIEW], refresher := Created(NEW, [[1]]))
  const S3 := S2.(mux := Mux(map[[2] := NEW_ENTRY], None, map[NEW := 0], map[]),
                  refresher := Backfill([[1]]), waiting := {NEW}, prepared := {NEW})
  const S4 := S3.(views := map[NEW := NEW_VIEW, OLD := OLD_VIEW], refresher := Created(OLD, []))
  const S5 := S4.(mux := Mux(map[[2] := NEW_ENTRY, [1] := OLD_ENTRY], None, map[NEW := 0, OLD := 0], map[]),
                  refresher := Backfill([]), waiting := {NEW, OLD}, prepared := {NEW, OLD})
  /** A proxied request takes the older one. */
  const S6 := S5.(mux := S5.mux.(counts := map[NEW := 0, OLD := 1]), refs := map[Request(0) := OLD],
                  lastUse := map[OLD := 0])
  /** The newer one becomes ready and current, and the older one is swept. */
  const S7 := S6.(ready := {NEW})
  const S8 := S7.(waiting := {OLD}, upgrader := Holding(NEW))
  const S9 := S8.(upgrader := Read(NEW, None))
  const S10 := S9.(upgrader := Decide(NEW, None))
  const S11 := S10.(mux := S6.mux.(current := Some(NEW_ENTRY)), upgrader := Switched(NEW, None))
  const S12 := S11.(upgrader := Sweeping(NEW, None, {NEW, OLD}))
  const S13 := S12.(queue := multiset{Removal(OLD, false)}, upgrader := Sweeping(NEW, None, {NEW}))
  const S14 := S13.(queue := multiset{}, cleaner := Starting(OLD, false))
  const S15 := S14.(cleaner := Deleting(OLD, Entry(OLD, false, true)))
  /** Deleted, with the request still holding it. */
  const S16 := S15.(mux := S11.mux.(versions := map[[2] := NEW_ENTRY]), cleaner := Waiting(OLD, Entry(OLD, false, true)))

  lemma Step0() ensures Enabled(S0, BackfillStart([[2], [1]])) && After(S0, BackfillStart([[2], [1]])) == S1 {
    assert Less([], [1]) && Less([], [2]) && Less([1], [2]);
  }
  lemma Step1() ensures Enabled(S1, Create(NEW, NEW_VIEW)) && After(S1, Create(NEW, NEW_VIEW)) == S2 {}
  lemma Step2() ensures Enabled(S2, PrepareVersion(false)) && After(S2, PrepareVersion(false)) == S3 {}
  lemma Step3() ensures Enabled(S3, Create(OLD, OLD_VIEW)) && After(S3, Create(OLD, OLD_VIEW)) == S4 {}
  lemma Step4() ensures Enabled(S4, PrepareVersion(false)) && After(S4, PrepareVersion(false)) == S5 {}
  lemma Step5() ensures Enabled(S5, RequestVersion(0, [1])) && After(S5, RequestVersion(0, [1])) == S6 {}
  lemma Step6() ensures Enabled(S6, CloseReady(NEW)) && After(S6, CloseReady(NEW)) == S7 {
    Latch.FreshExact(0, map[]);
  }
  lemma Step7() ensures Enabled(S7, UpgradeAcquire(NEW)) && After(S7, UpgradeAcquire(NEW)) == S8 {}
  lemma Step8() ensures Enabled(S8, UpgradeRead) && After(S8, UpgradeRead) == S9 {}
  lemma Step9() ensures Enabled(S9, UpgradeRelease) && After(S9, UpgradeRelease) == S10 {}
  lemma Step10() ensures Enabled(S10, UpgradeDecide) && After(S10, UpgradeDecide) == S11 {}
  lemma Step11() ensures Enabled(S11, UpgradeSnapshot) && After(S11, UpgradeSnapshot) == S12 {
    assert [1] in S11.mux.versions && [2] in S11.mux.versions;
    assert All(S11.mux) == {NEW, OLD};
  }
  lemma Step12() ensures Enabled(S12, UpgradeSweep(OLD)) && After(S12, UpgradeSweep(OLD)) == S13 {
    assert Less([1], [2]);
    assert {NEW, OLD} - {OLD} == {NEW};
  }
  lemma Step13() ensures Enabled(S13, CleanAcquire(Removal(OLD, false))) && After(S13, CleanAcquire(Removal(OLD, false))) == S14 {}
  lemma Step14() ensures Enabled(S14, CleanLookup) && After(S14, CleanLookup) == S15 {}
  lemma Step15() ensures Enabled(S15, CleanDelete) && After(S15, CleanDelete) == S16 {
    assert map[[2] := NEW_ENTRY, [1] := OLD_ENTRY] - {[1]} == map[[2] := NEW_ENTRY];
  }

  /** A run and its last state. */
  ghost predicate Ends(states: seq<State>, steps: seq<Step>, last: State) {
    Run(states, steps) && states[|steps|] == last
  }

  lemma Extend(states: seq<State>, steps: seq<Step>, s: State, step: Step, t: State)
    requires Ends(states, steps, s) && Enabled(s, step) && After(s, step) == t
    ensures Ends(states + [t], steps + [step], t)
  {
    hide Enabled, After, Init;
    forall i | 0 <= i < |steps + [step]| ensures Moves(states + [t], steps + [step], i) {
      if i < |steps| {
        assert Moves(states, steps, i);
      }
    }
  }

  lemma FirstHalf() returns (states: seq<State>, steps: seq<Step>)
    ensures Ends(states, steps, S8)
  {
    hide Enabled, After;
    states, steps := [S0], [];
    assert Ends(states, steps, S0);
    hide Ends;
    Step0(); Extend(states, steps, S0, BackfillStart([[2], [1]]), S1);
    states, steps := states + [S1], steps + [BackfillStart([[2], [1]])];
    Step1(); Extend(states, steps, S1, Create(NEW, NEW_VIEW), S2);
    states, steps := states + [S2], steps + [Create(NEW, NEW_VIEW)];
    Step2(); Extend(states, steps, S2, PrepareVersion(false), S3);
    states, steps := states + [S3], steps + [PrepareVersion(false)];
    Step3(); Extend(states, steps, S3, Create(OLD, OLD_VIEW), S4);
    states, steps := states + [S4], steps + [Create(OLD, OLD_VIEW)];
    Step4(); Extend(states, steps, S4, PrepareVersion(false), S5);
    states, steps := states + [S5], steps + [PrepareVersion(false)];
    Step5(); Extend(states, steps, S5, RequestVersion(0, [1]), S6);
    states, steps := states + [S6], steps + [RequestVersion(0, [1])];
    Step6(); Extend(states, steps, S6, CloseReady(NEW), S7);
    states, steps := states + [S7], steps + [CloseReady(NEW)];
    Step7(); Extend(states, steps, S7, UpgradeAcquire(NEW), S8);
    states, steps := states + [S8], steps + [UpgradeAcquire(NEW)];
  }

  lemma SecondHalf() returns (states: seq<State>, steps: seq<Step>)
    ensures Ends(states, steps, S15)
  {
    hide Enabled, After, Ends;
    states, steps := FirstHalf();
    Step8(); Extend(states, steps, S8, UpgradeRead, S9);
    states, steps := states + [S9], steps + [UpgradeRead];
    Step9(); Extend(states, steps, S9, UpgradeRelease, S10);
    states, steps := states + [S10], steps + [UpgradeRelease];
    Step10(); Extend(states, steps, S10, UpgradeDecide, S11);
    states, steps := states + [S11], steps + [UpgradeDecide];
    Step11(); Extend(states, steps, S11, UpgradeSnapshot, S12);
    states, steps := states + [S12], steps + [UpgradeSnapshot];
    Step12(); Extend(states, steps, S12, UpgradeSweep(OLD), S13);
    states, steps := states + [S13], steps + [UpgradeSweep(OLD)];
    Step13(); Extend(states, steps, S13, CleanAcquire(Removal(OLD, false)), S14);
    states, steps := states + [S14], steps + [CleanAcquire(Removal(OLD, false))];
    Step14(); Extend(states, steps, S14, CleanLookup, S15);
    states, steps := states + [S15], steps + [CleanLookup];
  }

  /** There is a run whose last step deletes a version from the mux under an outstanding reference. */
  lemma ReferenceOutstandingAtDelete() returns (states: seq<State>, steps: seq<Step>, i: nat)
    ensures Run(states, steps)
    ensures i < |steps| && steps[i].CleanDelete? && states[i].cleaner.Deleting?
    ensures Holders(states[i].refs, states[i].cleaner.v) != {}
  {
    hide Enabled, After;
    var before, taken := SecondHalf();
    Step15();
    Extend(before, taken, S15, CleanDelete, S16);
    states, steps, i := before + [S16], taken + [CleanDelete], |taken|;
    assert states[i] == S15;
    assert Request(0) in Holders(S15.refs, OLD);
  }
}
