/** `partitions.go`, the value-level specification: which partitions of a version are available
    somewhere, how many are missing, and the `ready` channel that is closed once none is. */
module Latch {

  /** `remote` lists, per partition, the other nodes that advertise it. */
  datatype View = View(
    num: nat,
    local: set<int>,
    remote: map<int, seq<string>>,
    numMissing: nat,
    readyClosed: bool)

  /** The partitions available on no node. */
  function Uncovered(num: nat, local: set<int>, remote: map<int, seq<string>>): set<int> {
    set i | 0 <= i < num && i !in local && i !in remote
  }

  predicate Covered(v: View) {
    forall i :: 0 <= i < v.num ==> i in v.local || i in v.remote
  }

  lemma CoveredIff(v: View)
    ensures Covered(v) <==> |Uncovered(v.num, v.local, v.remote)| == 0
  {
    var u := Uncovered(v.num, v.local, v.remote);
    if |u| == 0 {
      assert u == {};
      assert forall i :: 0 <= i < v.num ==> i in v.local || i in v.remote || i in u;
    } else {
      assert u != {};
      var i :| i in u;
    }
  }

  /** `updateMissing`: recount, and close the channel the first time nothing is missing. */
  function UpdateMissing(v: View): View {
    var missing := |Uncovered(v.num, v.local, v.remote)|;
    v.(numMissing := missing, readyClosed := v.readyClosed || missing == 0)
  }

  function UpdateLocal(v: View, added: set<int>): View {
    UpdateMissing(v.(local := v.local + added))
  }

  function UpdateRemote(v: View, remote: map<int, seq<string>>): View {
    UpdateMissing(v.(remote := remote))
  }

  /** A view straight out of `watchPartitions`. */
  function Fresh(num: nat, remote: map<int, seq<string>>): View {
    UpdateMissing(View(num, {}, remote, 0, false))
  }

  datatype Update = Local(added: set<int>) | Remote(nodes: map<int, seq<string>>)

  function Apply(v: View, u: Update): View {
    match u
    case Local(added) => UpdateLocal(v, added)
    case Remote(nodes) => UpdateRemote(v, nodes)
  }

  /** A life of one version's view: created, then updated. */
  ghost predicate History(h: seq<View>, us: seq<Update>) {
    && |h| == |us| + 1
    && (exists num: nat, remote :: h[0] == Fresh(num, remote))
    && (forall i :: 0 <= i < |us| ==> h[i + 1] == Apply(h[i], us[i]))
  }

  /** One update: the count is exact, the channel is closed afterwards exactly when it was before or
      everything is now covered, and no partition stops being local. */
  lemma ApplyExact(v: View, u: Update)
    ensures var w := Apply(v, u);
            && w.num == v.num
            && v.local <= w.local
            && w.numMissing == |Uncovered(w.num, w.local, w.remote)|
            && (w.readyClosed <==> v.readyClosed || Covered(w))
  {
    CoveredIff(Apply(v, u));
  }

  lemma FreshExact(num: nat, remote: map<int, seq<string>>)
    ensures Fresh(num, remote).readyClosed <==> Covered(Fresh(num, remote))
  {
    CoveredIff(Fresh(num, remote));
  }

  /** Over every sequence of updates `numMissing` counts the uncovered partitions, and `ready` is
      closed at a moment if and only if some moment up to it had every partition covered. */
  lemma {:induction false} ReadyIffOnceCovered(h: seq<View>, us: seq<Update>, n: nat)
    requires History(h, us) && n < |h|
    ensures h[n].numMissing == |Uncovered(h[n].num, h[n].local, h[n].remote)|
    ensures h[n].readyClosed <==> exists j :: 0 <= j <= n && Covered(h[j])
    ensures h[0].num == h[n].num && h[0].local <= h[n].local
  {
    if n == 0 {
      CoveredIff(h[0]);
    } else {
      ReadyIffOnceCovered(h, us, n - 1);
      ApplyExact(h[n - 1], us[n - 1]);
    }
  }

  /** The channel, closed at most once: there is at most one update that closes it, and it is the
      first at which coverage is complete. */
  lemma ClosedAtFirstCoverage(h: seq<View>, us: seq<Update>, n: nat)
    requires History(h, us) && n + 1 < |h|
    ensures !h[n].readyClosed && h[n + 1].readyClosed
       <==> Covered(h[n + 1]) && forall j :: 0 <= j <= n ==> !Covered(h[j])
  {
    ReadyIffOnceCovered(h, us, n);
    ReadyIffOnceCovered(h, us, n + 1);
  }

  /** Everything that was ever added to the local partitions. */
  function AllAdded(us: seq<Update>): set<int> {
    if us == [] then {}
    else AllAdded(us[..|us| - 1]) + match us[|us| - 1] case Local(added) => added case Remote(_) => {}
  }

  /** The last listing. */
  function LastListing(first: map<int, seq<string>>, us: seq<Update>): map<int, seq<string>> {
    if us == [] then first
    else match us[|us| - 1]
         case Local(_) => LastListing(first, us[..|us| - 1])
         case Remote(nodes) => nodes
  }

  /** Over every sequence of updates, local is all that was added and remote is the last listing. */
  lemma {:induction false} ViewIsExact(h: seq<View>, us: seq<Update>, n: nat)
    requires History(h, us) && n < |h|
    ensures h[n].local == AllAdded(us[..n]) && h[n].remote == LastListing(h[0].remote, us[..n])
  {
    if n > 0 {
      ViewIsExact(h, us, n - 1);
      assert us[..n][..n - 1] == us[..n - 1];
      assert h[n] == Apply(h[n - 1], us[n - 1]);
    }
  }
}
