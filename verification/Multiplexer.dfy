/** `version_mux.go`: routing requests to versions, reference counts, and the steps of removal. */
module Multiplexer {
  import opened Bytes

  /** A `*version`: the identity of the object and its immutable name. */
  datatype Version = Version(id: nat, name: Str)

  /** A `versionReferenceCount` value. The wait group and the timer it points to are shared by all
      copies, so they live in the maps `counts` and `deadlines` of the mux; `armed` says that the
      copy has a timer. */
  datatype Entry = Entry(version: Version, armed: bool, removing: bool)

  datatype Mux = Mux(
    versions: map<Str, Entry>,
    current: Option<Entry>,
    counts: map<Version, nat>,
    deadlines: map<Version, nat>)

  /** What a call that may panic leaves behind. */
  datatype Outcome = Done(mux: Mux) | Panic

  const EMPTY := Mux(map[], None, map[], map[])

  function Count(m: Mux, v: Version): nat {
    if v in m.counts then m.counts[v] else 0
  }

  function CurrentVersion(m: Mux): Option<Version> {
    if m.current.Some? then Some(m.current.value.version) else None
  }

  /** Handing out a reference: one more on the count, and the timer, if any, starts over. */
  function Touch(m: Mux, e: Entry, deadline: nat): Mux {
    m.(counts := m.counts[e.version := Count(m, e.version) + 1],
       deadlines := if e.armed then m.deadlines[e.version := deadline] else m.deadlines)
  }

  /** The entry a lookup by name finds. */
  function Find(m: Mux, name: Str): Option<Entry> {
    if name in m.versions then Some(m.versions[name]) else None
  }

  function TouchIfFound(m: Mux, e: Option<Entry>, deadline: nat): Mux {
    if e.Some? then Touch(m, e.value, deadline) else m
  }

  /** The reference is given back through the map, by name. */
  function AfterRelease(m: Mux, v: Version): Outcome {
    if v.name in m.versions then
      var w := m.versions[v.name].version;
      if Count(m, w) == 0 then Panic else Done(m.(counts := m.counts[w := Count(m, w) - 1]))
    else
      Done(m)
  }

  function AfterPrepare(m: Mux, v: Version): Outcome {
    if v.name in m.versions then Panic
    else Done(m.(versions := m.versions[v.name := Entry(v, false, false)], counts := m.counts[v := 0]))
  }

  function MustGet(m: Mux, v: Version): Option<Entry> {
    if v.name in m.versions && m.versions[v.name].version == v then Some(m.versions[v.name]) else None
  }

  function AfterUpgrade(m: Mux, v: Version): Outcome {
    match MustGet(m, v)
    case None => Panic
    case Some(e) => Done(m.(current := Some(e)))
  }

  function All(m: Mux): set<Version> {
    set n | n in m.versions :: m.versions[n].version
  }

  /** The first critical section of `remove`. The flag it sets is on a copy, so the mux keeps its
      value; None means that `remove` returns nil. */
  function RemoveLookup(m: Mux, v: Version): Option<Entry> {
    if v.name in m.versions && !m.versions[v.name].removing
    then Some(m.versions[v.name].(removing := true)) else None
  }

  /** The second one, entered only when waiting: the copy is written back with a timer. */
  function RemoveArm(m: Mux, v: Version, e: Entry, deadline: nat): Mux {
    m.(versions := m.versions[v.name := e.(armed := true)], deadlines := m.deadlines[e.version := deadline])
  }

  /** The third one. */
  function RemoveDelete(m: Mux, v: Version): Mux {
    m.(versions := m.versions - {v.name})
  }

  /** The object, its fields updated in place by each method; `now` is the clock at the call. */
  class VersionMux {
    var versions: map<Str, Entry>
    var currentVersion: Option<Entry>
    var counts: map<Version, nat>
    var deadlines: map<Version, nat>
    const versionRemoveTimeout: nat

    ghost function View(): Mux
      reads this
    {
      Mux(versions, currentVersion, counts, deadlines)
    }

    /** A zero override means ten minutes (in seconds). */
    constructor (overrideVersionRemoveTimeout: nat)
      ensures View() == EMPTY
      ensures versionRemoveTimeout == if overrideVersionRemoveTimeout != 0 then overrideVersionRemoveTimeout else 600
    {
      versions := map[];
      currentVersion := None;
      counts := map[];
      deadlines := map[];
      versionRemoveTimeout := if overrideVersionRemoveTimeout != 0 then overrideVersionRemoveTimeout else 600;
    }

    method GetCurrent(now: nat) returns (r: Option<Version>)
      modifies this`counts, this`deadlines
      ensures View() == TouchIfFound(old(View()), old(currentVersion), now + versionRemoveTimeout)
      ensures r == CurrentVersion(old(View()))
    {
      r := None;
      if currentVersion.Some? {
        AddReference(currentVersion.value, now);
        r := Some(currentVersion.value.version);
      }
    }

    method GetVersion(name: Str, now: nat) returns (r: Option<Version>)
      modifies this`counts, this`deadlines
      ensures View() == TouchIfFound(old(View()), Find(old(View()), name), now + versionRemoveTimeout)
      ensures r == if name in old(versions) then Some(old(versions)[name].version) else None
    {
      r := None;
      if name in versions {
        AddReference(versions[name], now);
        r := Some(versions[name].version);
      }
    }

    method AddReference(e: Entry, now: nat)
      modifies this`counts, this`deadlines
      ensures View() == Touch(old(View()), e, now + versionRemoveTimeout)
    {
      var n := if e.version in counts then counts[e.version] else 0;
      counts := counts[e.version := n + 1];
      if e.armed {
        deadlines := deadlines[e.version := now + versionRemoveTimeout];
      }
    }

    method Release(version: Option<Version>) returns (panicked: bool)
      modifies this`counts
      ensures panicked <==>
              && version.Some? && version.value.name in versions
              && Count(old(View()), versions[version.value.name].version) == 0
      ensures version.None? ==> !panicked && View() == old(View())
      ensures version.Some? ==>
                match AfterRelease(old(View()), version.value)
                case Panic => panicked && View() == old(View())
                case Done(m) => !panicked && View() == m
    {
      panicked := false;
      if version.Some? && version.value.name in versions {
        var w := versions[version.value.name].version;
        var n := if w in counts then counts[w] else 0;
        if n == 0 {
          panicked := true;
        } else {
          counts := counts[w := n - 1];
        }
      }
    }

    method Prepare(version: Version) returns (panicked: bool)
      modifies this`versions, this`counts
      ensures panicked <==> version.name in old(versions)
      ensures match AfterPrepare(old(View()), version)
              case Panic => panicked && View() == old(View())
              case Done(m) => !panicked && View() == m
    {
      if version.name in versions {
        return true;
      }
      versions := versions[version.name := Entry(version, false, false)];
      counts := counts[version := 0];
      return false;
    }

    method Upgrade(version: Version) returns (panicked: bool)
      modifies this`currentVersion
      ensures panicked <==> version.name !in versions || versions[version.name].version != version
      ensures match AfterUpgrade(old(View()), version)
              case Panic => panicked && View() == old(View())
              case Done(m) => !panicked && View() == m
    {
      if version.name !in versions || versions[version.name].version != version {
        return true;
      }
      currentVersion := Some(versions[version.name]);
      return false;
    }

    /** The critical sections of `remove`, in order; None is its early return of nil. */
    method RemoveBegin(version: Option<Version>) returns (vs: Option<Entry>)
      ensures vs == if version.Some? then RemoveLookup(View(), version.value) else None
    {
      vs := None;
      if version.Some? && version.value.name in versions {
        var e := versions[version.value.name];
        var alreadyRemoving := e.removing;
        if !alreadyRemoving {
          vs := Some(e.(removing := true));
        }
      }
    }

    method RemoveStartTimer(version: Version, vs: Entry, now: nat) returns (timed: Entry)
      modifies this`versions, this`deadlines
      ensures View() == RemoveArm(old(View()), version, vs, now + versionRemoveTimeout)
      ensures timed == vs.(armed := true)
    {
      timed := vs.(armed := true);
      versions := versions[version.name := timed];
      deadlines := deadlines[vs.version := now + versionRemoveTimeout];
    }

    method RemoveFromMap(version: Version)
      modifies this`versions
      ensures View() == RemoveDelete(old(View()), version)
    {
      versions := versions - {version.name};
    }
  }
}
