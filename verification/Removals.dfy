/** Calls of `remove` for one version that overlap, with no lock around them: what the guard inside
    `remove` is worth on its own (`version_mux.go`). */
module Removals {
  import opened Bytes
  import opened Multiplexer

  /** Where a call is; a call that has not begun is in no map. */
  datatype Call =
    | Looked(e: Entry)
    | Armed(e: Entry)
    | Deleted(e: Entry)
    | Returned(result: Option<Version>)

  datatype State = State(mux: Mux, calls: map<nat, Call>)

  /** The critical sections of a call, its return, and anything that others do to the mux. */
  datatype Step = Lookup(c: nat) | Arm(c: nat, deadline: nat) | Delete(c: nat) | Return(c: nat) | Other(next: Mux)

  /** `waiting` are the calls with `shouldWait`. Others leave the entry of the version alone. */
  predicate Enabled(s: State, v: Version, waiting: set<nat>, step: Step) {
    match step
    case Lookup(c) => c !in s.calls
    case Arm(c, _) => c in waiting && c in s.calls && s.calls[c].Looked?
    case Delete(c) => c in s.calls && if c in waiting then s.calls[c].Armed? else s.calls[c].Looked?
    case Return(c) => c in s.calls && s.calls[c].Deleted? && Count(s.mux, s.calls[c].e.version) == 0
    case Other(next) => Find(next, v.name) == Find(s.mux, v.name)
  }

  function After(s: State, v: Version, waiting: set<nat>, step: Step): State
    requires Enabled(s, v, waiting, step)
  {
    match step
    case Lookup(c) =>
      var found := RemoveLookup(s.mux, v);
      s.(calls := s.calls[c := if found.Some? then Looked(found.value) else Returned(None)])
    case Arm(c, deadline) =>
      State(RemoveArm(s.mux, v, s.calls[c].e, deadline), s.calls[c := Armed(s.calls[c].e)])
    case Delete(c) => State(RemoveDelete(s.mux, v), s.calls[c := Deleted(s.calls[c].e)])
    case Return(c) => s.(calls := s.calls[c := Returned(Some(v))])
    case Other(next) => s.(mux := next)
  }

  ghost predicate Moves(states: seq<State>, steps: seq<Step>, v: Version, waiting: set<nat>, i: nat)
    requires |states| == |steps| + 1 && i < |steps|
  {
    Enabled(states[i], v, waiting, steps[i]) && states[i + 1] == After(states[i], v, waiting, steps[i])
  }

  /** Any number of calls, begun while the version is prepared and no one is removing it. */
  ghost predicate Run(states: seq<State>, steps: seq<Step>, v: Version, waiting: set<nat>) {
    && |states| == |steps| + 1
    && states[0].calls == map[] && RemoveLookup(states[0].mux, v).Some?
    && forall i :: 0 <= i < |steps| ==> Moves(states, steps, v, waiting, i)
  }

  /** The steps that others can see. */
  predicate Seals(step: Step) {
    step.Arm? || step.Delete?
  }

  ghost predicate Open(steps: seq<Step>, i: nat)
    requires i <= |steps|
  {
    forall j :: 0 <= j < i ==> !Seals(steps[j])
  }

  /** Past the guard. */
  predicate Passed(s: State, c: nat) {
    c in s.calls && s.calls[c] != Returned(None)
  }

  ghost predicate EntriesMarked(s: State) {
    forall c :: c in s.calls && !s.calls[c].Returned? ==> s.calls[c].e.removing
  }

  lemma {:induction false} OpenExact(states: seq<State>, steps: seq<Step>, v: Version, waiting: set<nat>, i: nat)
    requires Run(states, steps, v, waiting) && i <= |steps|
    ensures EntriesMarked(states[i])
    ensures RemoveLookup(states[i].mux, v).Some? <==> Open(steps, i)
  {
    if i > 0 {
      OpenExact(states, steps, v, waiting, i - 1);
      assert Moves(states, steps, v, waiting, i - 1);
      assert Open(steps, i) <==> Open(steps, i - 1) && !Seals(steps[i - 1]);
    }
  }

  /** For every interleaving of any number of calls: a call gets past the guard if and only if no call has
      written its mark back or deleted the entry before it looks. */
  lemma GuardIff(states: seq<State>, steps: seq<Step>, v: Version, waiting: set<nat>, i: nat)
    requires Run(states, steps, v, waiting) && i < |steps| && steps[i].Lookup?
    ensures Passed(states[i + 1], steps[i].c) <==> Open(steps, i)
  {
    OpenExact(states, steps, v, waiting, i);
    assert Moves(states, steps, v, waiting, i);
  }

  /** The first step of a call that others can see. */
  predicate FirstSeal(step: Step, c: nat, waiting: set<nat>) {
    if c in waiting then step.Arm? && step.c == c else step == Delete(c)
  }

  /** A call begins with its lookup, and before it deletes it has sealed. */
  lemma {:induction false} PhaseHistory(states: seq<State>, steps: seq<Step>, v: Version, waiting: set<nat>, i: nat, c: nat)
    requires Run(states, steps, v, waiting) && i <= |steps|
    ensures c in states[i].calls <==> exists k :: 0 <= k < i && steps[k] == Lookup(c)
    ensures c in states[i].calls && (states[i].calls[c].Armed? || states[i].calls[c].Deleted? || states[i].calls[c] == Returned(Some(v))) ==>
              exists k :: 0 <= k < i && FirstSeal(steps[k], c, waiting)
  {
    if i > 0 {
      PhaseHistory(states, steps, v, waiting, i - 1, c);
      assert Moves(states, steps, v, waiting, i - 1);
    }
  }

  lemma {:induction false} OneLookup(states: seq<State>, steps: seq<Step>, v: Version, waiting: set<nat>, i: nat, j: nat)
    requires Run(states, steps, v, waiting) && i < |steps| && j < |steps|
    requires steps[i].Lookup? && steps[j] == steps[i]
    ensures i == j
  {
    PhaseHistory(states, steps, v, waiting, i, steps[i].c);
    PhaseHistory(states, steps, v, waiting, j, steps[i].c);
    assert Moves(states, steps, v, waiting, i) && Moves(states, steps, v, waiting, j);
  }

  /** Only these two calls take steps. */
  ghost predicate Only(steps: seq<Step>, a: nat, b: nat) {
    forall i :: 0 <= i < |steps| && !steps[i].Other? ==> steps[i].c == a || steps[i].c == b
  }

  /** For every interleaving of two calls: both get past the guard if and only if the second one looks
      before the first one has armed its timer, if it waits, or deleted the entry, if it does not. */
  lemma BothPassIff(states: seq<State>, steps: seq<Step>, v: Version, waiting: set<nat>, a: nat, b: nat, i: nat, j: nat)
    requires Run(states, steps, v, waiting) && Only(steps, a, b)
    requires i < j < |steps| && steps[i] == Lookup(a) && steps[j] == Lookup(b)
    ensures Passed(states[i + 1], a) && Passed(states[j + 1], b)
       <==> forall k :: i < k < j ==> !FirstSeal(steps[k], a, waiting)
  {
    hide Moves;
    GuardIff(states, steps, v, waiting, i);
    GuardIff(states, steps, v, waiting, j);
    forall k | 0 <= k < j && Seals(steps[k])
      ensures i < k && exists l :: i < l < j && FirstSeal(steps[l], a, waiting)
    {
      SealedByFirst(states, steps, v, waiting, a, b, i, j, k);
    }
    forall k | i < k < j && FirstSeal(steps[k], a, waiting) ensures Seals(steps[k]) {
    }
  }

  lemma SealedByFirst(states: seq<State>, steps: seq<Step>, v: Version, waiting: set<nat>, a: nat, b: nat, i: nat, j: nat, k: nat)
    requires Run(states, steps, v, waiting) && Only(steps, a, b)
    requires i < j < |steps| && steps[i] == Lookup(a) && steps[j] == Lookup(b)
    requires k < j && Seals(steps[k])
    ensures i < k && exists l :: i < l < j && FirstSeal(steps[l], a, waiting)
  {
    assert Moves(states, steps, v, waiting, k);
    var c := steps[k].c;
    PhaseHistory(states, steps, v, waiting, k, c);
    var m :| 0 <= m < k && steps[m] == Lookup(c);
    if c == b {
      OneLookup(states, steps, v, waiting, m, j);
    } else {
      OneLookup(states, steps, v, waiting, m, i);
      if !FirstSeal(steps[k], a, waiting) {
        var l :| 0 <= l < k && FirstSeal(steps[l], a, waiting);
        assert Moves(states, steps, v, waiting, l);
        PhaseHistory(states, steps, v, waiting, l, a);
        var n :| 0 <= n < l && steps[n] == Lookup(a);
        OneLookup(states, steps, v, waiting, n, i);
      }
    }
  }

  /** A call returns the version only if it got past the guard, so two calls that both return it looked
      before anyone sealed. */
  lemma ReturnersPassed(states: seq<State>, steps: seq<Step>, v: Version, waiting: set<nat>, n: nat, c: nat)
    requires Run(states, steps, v, waiting) && n <= |steps|
    requires c in states[n].calls && states[n].calls[c] == Returned(Some(v))
    ensures exists k :: 0 <= k < n && steps[k] == Lookup(c) && Open(steps, k)
  {
    PassedLooked(states, steps, v, waiting, n, c);
  }

  lemma {:induction false} PassedLooked(states: seq<State>, steps: seq<Step>, v: Version, waiting: set<nat>, n: nat, c: nat)
    requires Run(states, steps, v, waiting) && n <= |steps| && Passed(states[n], c)
    ensures exists k :: 0 <= k < n && steps[k] == Lookup(c) && Open(steps, k)
  {
    if n > 0 {
      assert Moves(states, steps, v, waiting, n - 1);
      if Passed(states[n - 1], c) {
        PassedLooked(states, steps, v, waiting, n - 1, c);
      } else {
        GuardIff(states, steps, v, waiting, n - 1);
      }
    }
  }

  /** The documented idempotence fails: for every prepared version that no one uses, there is a run of two
      calls that both return it. */
  lemma BothCanReturn(m: Mux, v: Version) returns (states: seq<State>, steps: seq<Step>)
    requires MustGet(m, v).Some? && !m.versions[v.name].removing && Count(m, v) == 0
    ensures Run(states, steps, v, {}) && states[0].mux == m && Only(steps, 0, 1)
    ensures var last := states[|steps|];
            0 in last.calls && 1 in last.calls && last.calls[0] == last.calls[1] == Returned(Some(v))
  {
    var s0 := State(m, map[]);
    var s1 := After(s0, v, {}, Lookup(0));
    var s2 := After(s1, v, {}, Lookup(1));
    var s3 := After(s2, v, {}, Delete(0));
    var s4 := After(s3, v, {}, Return(0));
    var s5 := After(s4, v, {}, Delete(1));
    var s6 := After(s5, v, {}, Return(1));
    states, steps := [s0, s1, s2, s3, s4, s5, s6], [Lookup(0), Lookup(1), Delete(0), Return(0), Delete(1), Return(1)];
    assert forall i :: 0 <= i < |steps| ==> Moves(states, steps, v, {}, i);
  }
}
