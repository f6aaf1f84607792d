/** The locks of `build.go`: a version's own, its database's, and one of the global slots of
    `multilock/multilock.go`, taken in this order by any number of concurrent builds. */
module BuildLocks {
  import opened Bytes

  /** A channel holding one token per free slot; a call that would block is one whose precondition is
      not met yet. */
  class Multilock {
    const capacity: nat
    var c: seq<bool>

    ghost predicate Valid()
      reads this
    {
      |c| <= capacity
    }

    constructor (n: nat)
      ensures Valid() && capacity == n && |c| == n
    {
      capacity := n;
      var filled: seq<bool> := [];
      for i := 0 to n
        invariant |filled| == i
      {
        filled := filled + [true];
      }
      c := filled;
    }

    method Lock()
      requires Valid() && |c| > 0
      modifies this
      ensures Valid() && |c| == old(|c|) - 1
    {
      c := c[1..];
    }

    method Unlock()
      requires Valid() && |c| < capacity
      modifies this
      ensures Valid() && |c| == old(|c|) + 1
    {
      c := c + [true];
    }
  }

  datatype Stage = Queued | HasVersion | HasDb | Loading | Returned

  datatype Build = Build(version: nat, stage: Stage)

  /** `dbOf` gives the database of a version. `slots` is None when there is no global limit. `loads`
      records the versions loaded successfully, in order. */
  datatype State = State(
    dbOf: map<nat, nat>,
    max: nat,
    builds: map<nat, Build>,
    versionLock: map<nat, nat>,
    dbLock: map<nat, nat>,
    slots: Option<nat>,
    built: set<nat>,
    loads: seq<nat>)

  predicate Init(s: State) {
    && s.builds == map[] && s.versionLock == map[] && s.dbLock == map[] && s.built == {} && s.loads == []
    && (s.slots.Some? ==> s.slots.value == s.max)
  }

  datatype Outcome = NothingNeeded | Loaded | Failed

  datatype Step =
    | Spawn(t: nat, version: nat)
    | LockVersion(t: nat)
    | LockDb(t: nat)
    | LockSlot(t: nat)
    | Finish(t: nat, outcome: Outcome)

  function Db(s: State, v: nat): nat {
    if v in s.dbOf then s.dbOf[v] else 0
  }

  predicate At(s: State, t: nat, stage: Stage) {
    t in s.builds && s.builds[t].stage == stage
  }

  predicate Enabled(s: State, step: Step) {
    match step
    case Spawn(t, _) => t !in s.builds
    case LockVersion(t) => At(s, t, Queued) && s.builds[t].version !in s.versionLock
    case LockDb(t) => At(s, t, HasVersion) && Db(s, s.builds[t].version) !in s.dbLock
    case LockSlot(t) => At(s, t, HasDb) && (s.slots.Some? ==> s.slots.value > 0)
    case Finish(t, _) => At(s, t, Loading)
  }

  function Move(s: State, t: nat, stage: Stage): State
    requires t in s.builds
  {
    s.(builds := s.builds[t := s.builds[t].(stage := stage)])
  }

  function After(s: State, step: Step): State
    requires Enabled(s, step)
  {
    match step
    case Spawn(t, v) => s.(builds := s.builds[t := Build(v, Queued)])
    case LockVersion(t) =>
      // A version that is built already is given back at once.
      var v := s.builds[t].version;
      if v in s.built then Move(s, t, Returned)
      else Move(s, t, HasVersion).(versionLock := s.versionLock[v := t])
    case LockDb(t) => Move(s, t, HasDb).(dbLock := s.dbLock[Db(s, s.builds[t].version) := t])
    case LockSlot(t) =>
      Move(s, t, Loading).(slots := if s.slots.Some? then Some(s.slots.value - 1) else None)
    case Finish(t, outcome) =>
      var v := s.builds[t].version;
      Move(s, t, Returned).(
        versionLock := s.versionLock - {v},
        dbLock := s.dbLock - {Db(s, v)},
        slots := if s.slots.Some? then Some(s.slots.value + 1) else None,
        built := if outcome == Failed then s.built else s.built + {v},
        loads := if outcome == Loaded then s.loads + [v] else s.loads)
  }

  ghost predicate Run(states: seq<State>, steps: seq<Step>) {
    && |states| == |steps| + 1
    && Init(states[0])
    && forall i :: 0 <= i < |steps| ==> Moves(states, steps, i)
  }

  ghost predicate Moves(states: seq<State>, steps: seq<Step>, i: nat)
    requires |states| == |steps| + 1 && i < |steps|
  {
    Enabled(states[i], steps[i]) && states[i + 1] == After(states[i], steps[i])
  }

  // ---------------------------------------------------------------- the invariant

  predicate HoldsVersion(b: Build) {
    b.stage == HasVersion || b.stage == HasDb || b.stage == Loading
  }

  predicate HoldsDb(b: Build) {
    b.stage == HasDb || b.stage == Loading
  }

  predicate OwnsVersion(builds: map<nat, Build>, v: nat, t: nat) {
    t in builds && HoldsVersion(builds[t]) && builds[t].version == v
  }

  predicate OwnsDb(s: State, d: nat, t: nat) {
    t in s.builds && HoldsDb(s.builds[t]) && Db(s, s.builds[t].version) == d
  }

  /** A lock is recorded for exactly the build that is past taking it. */
  ghost predicate VersionLocks(builds: map<nat, Build>, versionLock: map<nat, nat>, built: set<nat>) {
    && (forall v, t {:trigger OwnsVersion(builds, v, t)} ::
          OwnsVersion(builds, v, t) <==> v in versionLock && versionLock[v] == t)
    && (forall v :: v in versionLock ==> v !in built)
  }

  ghost predicate DbLocks(s: State) {
    forall d, t {:trigger OwnsDb(s, d, t)} :: OwnsDb(s, d, t) <==> d in s.dbLock && s.dbLock[d] == t
  }

  function Loaders(builds: map<nat, Build>): set<nat> {
    set t | t in builds && builds[t].stage == Loading
  }

  /** Free slots and holders add up to the limit. */
  ghost predicate SlotsAddUp(s: State) {
    s.slots.Some? ==> s.slots.value + |Loaders(s.builds)| == s.max
  }

  ghost predicate LoadedOnce(loads: seq<nat>, built: set<nat>) {
    && (forall i, j :: 0 <= i < j < |loads| ==> loads[i] != loads[j])
    && (forall v :: v in loads ==> v in built)
  }

  ghost predicate Inv(s: State) {
    VersionLocks(s.builds, s.versionLock, s.built) && DbLocks(s) && SlotsAddUp(s) && LoadedOnce(s.loads, s.built)
  }

  lemma LoadersMove(builds: map<nat, Build>, t: nat, b: Build)
    requires t !in builds || builds[t].version == b.version
    ensures var was := t in builds && builds[t].stage == Loading;
            |Loaders(builds[t := b])| == |Loaders(builds)| + (if b.stage == Loading then 1 else 0) - (if was then 1 else 0)
  {
    var l := Loaders(builds) - {t};
    forall u ensures u in Loaders(builds[t := b]) <==> (if u == t then b.stage == Loading else u in l) {
    }
    if t in builds && builds[t].stage == Loading {
      assert Loaders(builds) == l + {t};
    } else {
      assert Loaders(builds) == l;
    }
    if b.stage == Loading {
      assert Loaders(builds[t := b]) == l + {t};
    } else {
      assert Loaders(builds[t := b]) == l;
    }
  }

  lemma StepKeepsVersionLocks(s: State, step: Step)
    requires Inv(s) && Enabled(s, step)
    ensures var n := After(s, step); VersionLocks(n.builds, n.versionLock, n.built)
  {
    hide DbLocks, SlotsAddUp, LoadedOnce;
    var n := After(s, step);
    if step.t in s.builds {
      assert OwnsVersion(s.builds, s.builds[step.t].version, step.t) <==> HoldsVersion(s.builds[step.t]);
    }
    forall v, t ensures OwnsVersion(n.builds, v, t) <==> v in n.versionLock && n.versionLock[v] == t {
      assert OwnsVersion(s.builds, v, t) <==> v in s.versionLock && s.versionLock[v] == t;
    }
  }

  lemma StepKeepsDbLocks(s: State, step: Step)
    requires Inv(s) && Enabled(s, step)
    ensures DbLocks(After(s, step))
  {
    hide VersionLocks, SlotsAddUp, LoadedOnce;
    var n := After(s, step);
    if step.t in s.builds {
      assert OwnsDb(s, Db(s, s.builds[step.t].version), step.t) <==> HoldsDb(s.builds[step.t]);
    }
    forall d, t ensures OwnsDb(n, d, t) <==> d in n.dbLock && n.dbLock[d] == t {
      assert OwnsDb(s, d, t) <==> d in s.dbLock && s.dbLock[d] == t;
    }
  }

  lemma StepKeepsSlots(s: State, step: Step)
    requires Inv(s) && Enabled(s, step)
    ensures SlotsAddUp(After(s, step))
  {
    hide VersionLocks, DbLocks, LoadedOnce, Loaders;
    var n := After(s, step);
    LoadersMove(s.builds, step.t, n.builds[step.t]);
    assert n.builds == s.builds[step.t := n.builds[step.t]];
  }

  lemma StepKeepsLoads(s: State, step: Step)
    requires Inv(s) && Enabled(s, step)
    ensures LoadedOnce(After(s, step).loads, After(s, step).built)
  {
    hide DbLocks, SlotsAddUp;
    if step.Finish? {
      assert OwnsVersion(s.builds, s.builds[step.t].version, step.t);
    }
  }

  lemma {:induction false} RunInvariant(states: seq<State>, steps: seq<Step>, i: nat)
    requires Run(states, steps) && i < |states|
    ensures Inv(states[i]) && states[i].max == states[0].max && states[i].dbOf == states[0].dbOf
    ensures states[i].slots.Some? <==> states[0].slots.Some?
  {
    hide VersionLocks, DbLocks, SlotsAddUp, LoadedOnce;
    if i == 0 {
      InitHolds(states[0]);
    } else {
      RunInvariant(states, steps, i - 1);
      assert Moves(states, steps, i - 1);
      StepKeepsVersionLocks(states[i - 1], steps[i - 1]);
      StepKeepsDbLocks(states[i - 1], steps[i - 1]);
      StepKeepsSlots(states[i - 1], steps[i - 1]);
      StepKeepsLoads(states[i - 1], steps[i - 1]);
    }
  }

  lemma InitHolds(s: State)
    requires Init(s)
    ensures Inv(s)
  {
    assert Loaders(s.builds) == {};
  }

  // ---------------------------------------------------------------- what holds over every run

  /** At most one load per database at a time. */
  lemma OneLoadPerDb(states: seq<State>, steps: seq<Step>, i: nat, t: nat, u: nat)
    requires Run(states, steps) && i < |states| && At(states[i], t, Loading) && At(states[i], u, Loading)
    requires Db(states[i], states[i].builds[t].version) == Db(states[i], states[i].builds[u].version)
    ensures t == u
  {
    RunInvariant(states, steps, i);
    var d := Db(states[i], states[i].builds[t].version);
    assert OwnsDb(states[i], d, t) && OwnsDb(states[i], d, u);
  }

  /** Free slots plus loads stay what they were at the start, so no more than the limit run at once. */
  lemma SlotsConserved(states: seq<State>, steps: seq<Step>, i: nat)
    requires Run(states, steps) && i < |states| && states[0].slots.Some?
    ensures states[i].slots.Some? && states[i].slots.value + |Loaders(states[i].builds)| == states[0].max
    ensures |Loaders(states[i].builds)| <= states[0].max
  {
    RunInvariant(states, steps, i);
  }

  /** A version is loaded successfully at most once, however many builds of it are started. */
  lemma LoadsAtMostOnce(states: seq<State>, steps: seq<Step>, i: nat, a: nat, b: nat)
    requires Run(states, steps) && i < |states| && a < b < |states[i].loads|
    ensures states[i].loads[a] != states[i].loads[b]
  {
    RunInvariant(states, steps, i);
  }

  /** Step `j` ended a build of the version in one of these ways. */
  ghost predicate EndedAs(states: seq<State>, steps: seq<Step>, j: nat, v: nat, outcomes: set<Outcome>)
    requires |states| == |steps| + 1 && j < |steps|
  {
    steps[j].Finish? && steps[j].t in states[j].builds && states[j].builds[steps[j].t].version == v && steps[j].outcome in outcomes
  }

  ghost predicate EverEndedAs(states: seq<State>, steps: seq<Step>, i: nat, v: nat, outcomes: set<Outcome>)
    requires |states| == |steps| + 1 && i <= |steps|
  {
    exists j :: 0 <= j < i && EndedAs(states, steps, j, v, outcomes)
  }

  /** A version counts as built exactly if a build of it found nothing to do or loaded it, and as loaded
      exactly if one loaded it; a failed build leaves it open to the next one. */
  lemma {:induction false} BuiltExact(states: seq<State>, steps: seq<Step>, i: nat, v: nat)
    requires Run(states, steps) && i <= |steps|
    ensures v in states[i].built <==> EverEndedAs(states, steps, i, v, {NothingNeeded, Loaded})
    ensures v in states[i].loads <==> EverEndedAs(states, steps, i, v, {Loaded})
  {
    if i > 0 {
      BuiltExact(states, steps, i - 1, v);
      assert Moves(states, steps, i - 1);
      EverEndedNext(states, steps, i - 1, v, {NothingNeeded, Loaded});
      EverEndedNext(states, steps, i - 1, v, {Loaded});
    }
  }

  lemma EverEndedNext(states: seq<State>, steps: seq<Step>, i: nat, v: nat, outcomes: set<Outcome>)
    requires |states| == |steps| + 1 && i < |steps|
    ensures EverEndedAs(states, steps, i + 1, v, outcomes) <==> EverEndedAs(states, steps, i, v, outcomes) || EndedAs(states, steps, i, v, outcomes)
  {
    if EndedAs(states, steps, i, v, outcomes) {
    } else if j :| 0 <= j < i && EndedAs(states, steps, j, v, outcomes) {
    }
  }

  predicate Advances(step: Step) {
    !step.Spawn?
  }

  lemma CanFinish(s: State, t: nat)
    requires At(s, t, Loading)
    ensures exists step :: Advances(step) && Enabled(s, step)
  {
    assert Advances(Finish(t, Failed)) && Enabled(s, Finish(t, Failed));
  }

  /** A build holding its database's lock gets a slot, or someone who has one can finish. */
  lemma SlotOrLoader(s: State, t: nat)
    requires Inv(s) && At(s, t, HasDb) && (s.slots.Some? ==> s.max > 0)
    ensures exists step :: Advances(step) && Enabled(s, step)
  {
    hide VersionLocks, DbLocks, LoadedOnce;
    if s.slots.Some? && s.slots.value == 0 {
      assert |Loaders(s.builds)| > 0;
      var u :| u in Loaders(s.builds);
      CanFinish(s, u);
    } else {
      assert Advances(LockSlot(t)) && Enabled(s, LockSlot(t));
    }
  }

  lemma DbHolderAdvances(s: State, t: nat)
    requires Inv(s) && t in s.builds && HoldsDb(s.builds[t]) && (s.slots.Some? ==> s.max > 0)
    ensures exists step :: Advances(step) && Enabled(s, step)
  {
    hide Inv;
    if At(s, t, Loading) {
      CanFinish(s, t);
    } else {
      SlotOrLoader(s, t);
    }
  }

  lemma VersionHolderAdvances(s: State, t: nat)
    requires Inv(s) && t in s.builds && HoldsVersion(s.builds[t]) && (s.slots.Some? ==> s.max > 0)
    ensures exists step :: Advances(step) && Enabled(s, step)
  {
    hide VersionLocks, SlotsAddUp, LoadedOnce;
    if HoldsDb(s.builds[t]) {
      DbHolderAdvances(s, t);
    } else if Db(s, s.builds[t].version) in s.dbLock {
      var u := s.dbLock[Db(s, s.builds[t].version)];
      assert OwnsDb(s, Db(s, s.builds[t].version), u);
      DbHolderAdvances(s, u);
    } else {
      assert Advances(LockDb(t)) && Enabled(s, LockDb(t));
    }
  }

  /** No deadlock: while any build has not returned, some build can take a step. */
  lemma SomeBuildCanStep(states: seq<State>, steps: seq<Step>, i: nat, t: nat)
    requires Run(states, steps) && i < |states| && (states[0].slots.Some? ==> states[0].max > 0)
    requires t in states[i].builds && states[i].builds[t].stage != Returned
    ensures exists step :: Advances(step) && Enabled(states[i], step)
  {
    hide DbLocks, SlotsAddUp, LoadedOnce;
    RunInvariant(states, steps, i);
    var s := states[i];
    if HoldsVersion(s.builds[t]) {
      VersionHolderAdvances(s, t);
    } else if s.builds[t].version in s.versionLock {
      var u := s.versionLock[s.builds[t].version];
      assert OwnsVersion(s.builds, s.builds[t].version, u);
      VersionHolderAdvances(s, u);
    } else {
      assert Advances(LockVersion(t)) && Enabled(s, LockVersion(t));
    }
  }
}
