/** `serve.go`: a request for a key that the node does not hold, passed on to the peers that do. */
module Serving {
  import opened Bytes
  import opened Hashcode
  import opened Ingest
  import Blocks
  import Node
  import Proxy

  // ---------------------------------------------------------------- shuffling

  /** `rand.Perm(n)`. */
  ghost predicate Permutes(perm: seq<nat>, n: nat) {
    && |perm| == n
    && (forall i :: 0 <= i < n ==> perm[i] < n)
    && (forall i, j :: 0 <= i < j < n ==> perm[i] != perm[j])
    && (forall k: nat :: k < n ==> k in perm)
  }

  /** `shuffle`, for a given permutation. */
  method Shuffle(vs: seq<string>, perm: seq<nat>) returns (shuffled: seq<string>)
    requires Permutes(perm, |vs|)
    ensures |shuffled| == |vs| && forall i :: 0 <= i < |vs| ==> shuffled[perm[i]] == vs[i]
  {
    var slots := new string[|vs|](_ => "");
    for i := 0 to |vs|
      invariant forall j :: 0 <= j < i ==> slots[perm[j]] == vs[j]
    {
      slots[perm[i]] := vs[i];
    }
    return slots[..];
  }

  /** Shuffled peers are the same peers, each still once, as the proxy loop needs them. */
  lemma ShuffledPeers(vs: seq<string>, perm: seq<nat>, shuffled: seq<string>)
    requires Permutes(perm, |vs|) && Distinct(vs)
    requires |shuffled| == |vs| && forall i :: 0 <= i < |vs| ==> shuffled[perm[i]] == vs[i]
    ensures Distinct(shuffled)
    ensures forall v :: v in shuffled <==> v in vs
  {
    forall a, b | 0 <= a < b < |shuffled| ensures shuffled[a] != shuffled[b] {
      assert a in perm && b in perm;
      var i :| 0 <= i < |perm| && perm[i] == a;
      var j :| 0 <= j < |perm| && perm[j] == b;
      assert vs[i] != vs[j];
    }
    forall v ensures v in shuffled <==> v in vs {
      if v in shuffled {
        var a: nat :| a < |shuffled| && shuffled[a] == v;
        assert a in perm;
        var i :| 0 <= i < |perm| && perm[i] == a;
        assert vs[i] == v;
      }
      if v in vs {
        var i :| 0 <= i < |vs| && vs[i] == v;
        assert shuffled[perm[i]] == v;
      }
    }
  }

  // ---------------------------------------------------------------- what peers answer

  function Code(a: Node.Answer): nat
    requires a != Node.AskPeers
  {
    match a
    case Found200(_) => 200
    case NotFound404 => 404
    case Error500 => 500
  }

  /** The node is at some moment of some life with this dataset. */
  ghost predicate InLife(n: Node.Node, files: seq<seq<Record>>) {
    exists ns, es, i: nat :: Node.Life(ns, es, files) && i < |ns| && ns[i] == n
  }

  ghost predicate Holder(n: Node.Node, files: seq<seq<Record>>, held: nat) {
    InLife(n, files) && held in n.local
  }

  /** An attempt at a peer that holds the partition: it fails on the way, or the peer answers it as it
      answers any request that was already proxied once. */
  ghost predicate FromHolder(a: Proxy.Attempt, files: seq<seq<Record>>, held: nat, key: Str) {
    a.TransportError? || exists n :: Holder(n, files, held) && a == Proxy.Status(Code(Node.Serve(n, key, true)))
  }

  /** A call of `proxy` that asks holders of a partition, each in whatever state it is when it answers. */
  ghost predicate AsksHolders(cs: seq<Proxy.Call>, steps: seq<Proxy.Step>, files: seq<seq<Record>>, held: nat, key: Str) {
    Proxy.Run(cs, steps) && forall i :: 0 <= i < |steps| && steps[i].Send? ==> FromHolder(steps[i].attempt, files, held, key)
  }

  ghost predicate InDatasetAtAll(files: seq<seq<Record>>, key: Str) {
    exists v :: InDataset(files, key, v)
  }

  /** What a node at some moment of a life finds: only dataset keys; and with safe files, exactly the keys
      taken for a partition that it loaded. */
  lemma LifeFacts(n: Node.Node, files: seq<seq<Record>>, key: Str)
    requires InLife(n, files)
    ensures files != [] && n.world.store.numPartitions == |files| && n.local <= Node.Loaded(n)
    ensures Blocks.Get(n.world.store, key).Value? ==> InDatasetAtAll(files, key)
    ensures AllSafe(files, |files|) ==>
              (Blocks.Get(n.world.store, key).Value? <==> TakenIn(files, key, Node.Loaded(n), |files|))
  {
    hide NormalPartition, AlternatePartition, TakenIn, AllSafe, InDataset, Node.AddedBy, Node.Life;
    var ns, es, i: nat :| Node.Life(ns, es, files) && i < |ns| && ns[i] == n;
    Node.LookupExact(ns, es, files, i, key);
    Node.LookupsAreSound(ns, es, files, i, key);
    if AllSafe(files, |files|) {
      Node.SafeLookupExact(ns, es, files, i, key);
    }
  }

  /** A holder of one of a key's partitions answers 200 only for dataset keys; and with safe files exactly
      if the key was taken for a partition that it loaded, in particular for the one that it holds. */
  lemma HolderAnswer(n: Node.Node, files: seq<seq<Record>>, held: nat, key: Str)
    requires files != [] && Holder(n, files, held)
    requires held == NormalPartition(key, |files|) || held == AlternatePartition(key, |files|)
    ensures Code(Node.Serve(n, key, true)) == 200 ==> InDatasetAtAll(files, key)
    ensures AllSafe(files, |files|) ==>
              && (Code(Node.Serve(n, key, true)) == 200 <==> TakenIn(files, key, Node.Loaded(n), |files|))
              && (TakenIn(files, key, {held}, |files|) ==> Code(Node.Serve(n, key, true)) == 200)
  {
    hide NormalPartition, AlternatePartition, TakenIn, AllSafe, InLife, Blocks.Get, InDatasetAtAll, Node.Loaded;
    LifeFacts(n, files, key);
    TakenInPointwise(files, key, Node.Loaded(n), |files|);
  }

  /** A dataset key is taken for one of its two partitions. */
  lemma TakenForOne(files: seq<seq<Record>>, key: Str)
    requires files != [] && InDatasetAtAll(files, key)
    ensures var p, q := NormalPartition(key, |files|), AlternatePartition(key, |files|);
            TakenIn(files, key, {p}, |files|) || TakenIn(files, key, {q}, |files|)
  {
    hide NormalPartition, AlternatePartition, TakenIn, InDataset;
    var v :| InDataset(files, key, v);
    var p, q := NormalPartition(key, |files|), AlternatePartition(key, |files|);
    DatasetKeyTaken(files, key, v, {p, q}, |files|);
    TakenInPointwise(files, key, {p, q}, |files|);
  }

  /** Holders of a partition that the key is taken for never answer 404, and never fail on their own. */
  lemma TakenNeverMissed(a: Proxy.Attempt, files: seq<seq<Record>>, held: nat, key: Str)
    requires files != [] && FromHolder(a, files, held, key) && a.Status?
    requires held == NormalPartition(key, |files|) || held == AlternatePartition(key, |files|)
    ensures AllSafe(files, |files|) && TakenIn(files, key, {held}, |files|) ==> a.code == 200
    ensures a.code == 200 ==> InDatasetAtAll(files, key)
  {
    hide NormalPartition, AlternatePartition, TakenIn, AllSafe, Holder, Node.Serve, InDatasetAtAll;
    var n :| Holder(n, files, held) && a == Proxy.Status(Code(Node.Serve(n, key, true)));
    HolderAnswer(n, files, held, key);
  }

  // ---------------------------------------------------------------- serveProxied

  datatype Response = Relayed(peer: string, code: nat) | BadGateway502 | GatewayTimeout504 | Failed500

  /** `serveProxied`, given what `proxy` returns for the peers of the normal partition and, if it comes
      to that, for those of the alternate one. */
  function ServeProxied(peers: seq<string>, normal: nat, alternate: nat, first: Proxy.Result, second: Proxy.Result): Response
    requires first != Proxy.Running && second != Proxy.Running
  {
    if peers == [] then BadGateway502
    else
      match if first.Answered? && first.code == 404 && alternate != normal then second else first
      case NoAvailablePeers => BadGateway502
      case TimedOut => GatewayTimeout504
      case Canceled => Failed500
      case Answered(peer, code) => Relayed(peer, code)
  }

  /** A request that is passed on: two finished calls, the first to holders of the key's normal partition
      and the second to holders of its alternate one. */
  ghost predicate Request(cs: seq<Proxy.Call>, steps: seq<Proxy.Step>, ds: seq<Proxy.Call>, more: seq<Proxy.Step>,
                          files: seq<seq<Record>>, key: Str)
  {
    && files != []
    && AsksHolders(cs, steps, files, NormalPartition(key, |files|), key)
    && AsksHolders(ds, more, files, AlternatePartition(key, |files|), key)
    && cs[|steps|].loop.result != Proxy.Running && ds[|more|].loop.result != Proxy.Running
  }

  ghost function Answer(cs: seq<Proxy.Call>, steps: seq<Proxy.Step>, ds: seq<Proxy.Call>, more: seq<Proxy.Step>,
                        files: seq<seq<Record>>, key: Str): Response
    requires Request(cs, steps, ds, more, files, key)
  {
    ServeProxied(cs[0].peers, NormalPartition(key, |files|), AlternatePartition(key, |files|),
                 cs[|steps|].loop.result, ds[|more|].loop.result)
  }

  /** The answer of a call to holders: 200 only for keys of the dataset, and with safe files for every key
      that is taken for their partition. */
  lemma CallAnswer(cs: seq<Proxy.Call>, steps: seq<Proxy.Step>, files: seq<seq<Record>>, held: nat, key: Str)
    requires files != [] && AsksHolders(cs, steps, files, held, key) && cs[|steps|].loop.result.Answered?
    requires held == NormalPartition(key, |files|) || held == AlternatePartition(key, |files|)
    ensures var code := cs[|steps|].loop.result.code;
            && (code == 200 || code == 404)
            && (AllSafe(files, |files|) && TakenIn(files, key, {held}, |files|) ==> code == 200)
            && (code == 200 ==> InDatasetAtAll(files, key))
  {
    hide NormalPartition, AlternatePartition, TakenIn, AllSafe, FromHolder, InDatasetAtAll;
    var r := cs[|steps|].loop.result;
    Proxy.AnswerIsThePeers(cs, steps, |steps|);
    var j :| 0 <= j < |steps| && steps[j] == Proxy.Send(r.peer, Proxy.Status(r.code));
    TakenNeverMissed(steps[j].attempt, files, held, key);
  }

  /** Whatever fails or times out on the way, and whatever the peers do meanwhile: an answer that is
      passed back is 200 only for a key of the dataset, and 404 otherwise; and with safe files it is 200
      for every key of the dataset. For keys with two partitions this rests on the second call. */
  lemma RelayedAnswerIsRight(cs: seq<Proxy.Call>, steps: seq<Proxy.Step>, ds: seq<Proxy.Call>, more: seq<Proxy.Step>,
                             files: seq<seq<Record>>, key: Str)
    requires Request(cs, steps, ds, more, files, key)
    ensures var a := Answer(cs, steps, ds, more, files, key);
            a.Relayed? ==>
              && (a.code == 200 || a.code == 404)
              && (a.code == 200 ==> InDatasetAtAll(files, key))
              && (AllSafe(files, |files|) ==> (a.code == 200 <==> InDatasetAtAll(files, key)))
  {
    hide NormalPartition, AlternatePartition, TakenIn, AllSafe, FromHolder, InDatasetAtAll;
    var p, q := NormalPartition(key, |files|), AlternatePartition(key, |files|);
    if InDatasetAtAll(files, key) {
      TakenForOne(files, key);
    }
    if cs[|steps|].loop.result.Answered? {
      CallAnswer(cs, steps, files, p, key);
    }
    if ds[|more|].loop.result.Answered? {
      CallAnswer(ds, more, files, q, key);
    }
  }

  /** The request goes on to the holders of the alternate partition. */
  ghost predicate SecondCall(cs: seq<Proxy.Call>, steps: seq<Proxy.Step>, files: seq<seq<Record>>, key: Str)
    requires files != [] && |cs| == |steps| + 1
  {
    var r := cs[|steps|].loop.result;
    r.Answered? && r.code == 404 && NormalPartition(key, |files|) != AlternatePartition(key, |files|)
  }

  /** What each failure looks like to the client: 504 exactly if the total timeout ended the call that
      counts, 500 exactly if the request was cancelled during it, 502 exactly if there was no peer to ask
      or all that were asked failed. */
  lemma FailureStatus(cs: seq<Proxy.Call>, steps: seq<Proxy.Step>, ds: seq<Proxy.Call>, more: seq<Proxy.Step>,
                      files: seq<seq<Record>>, key: Str)
    requires Request(cs, steps, ds, more, files, key)
    ensures var a, asked := Answer(cs, steps, ds, more, files, key), cs[0].peers != [];
            var last := if SecondCall(cs, steps, files, key) then more else steps;
            var result := if SecondCall(cs, steps, files, key) then ds[|more|].loop.result else cs[|steps|].loop.result;
            && (a == GatewayTimeout504 <==> asked && Proxy.FireTotal in last)
            && (a == Failed500 <==> asked && Proxy.CancelRequest in last)
            && (a == BadGateway502 <==> !asked || result == Proxy.NoAvailablePeers)
  {
    hide NormalPartition, AlternatePartition, FromHolder, Proxy.Moves, Proxy.Init;
    Proxy.ResultExact(cs, steps, |steps|);
    Proxy.ResultExact(ds, more, |more|);
    assert steps[..|steps|] == steps && more[..|more|] == more;
  }

  /** Nothing fails on the way and no one gives up waiting. */
  ghost predicate Smooth(cs: seq<Proxy.Call>, steps: seq<Proxy.Step>)
    requires Proxy.Run(cs, steps)
  {
    && Proxy.LoopTop(false) !in steps
    && (forall i :: 0 <= i < |steps| && steps[i].Send? ==> steps[i].attempt.Status?)
    && cs[|steps|].loop.result != Proxy.TimedOut && cs[|steps|].loop.result != Proxy.Canceled
  }

  /** A smooth call to at least one holder of a partition that the key is taken for has an answer. */
  lemma SmoothCallAnswers(cs: seq<Proxy.Call>, steps: seq<Proxy.Step>, files: seq<seq<Record>>, held: nat, key: Str)
    requires files != [] && AllSafe(files, |files|) && AsksHolders(cs, steps, files, held, key) && Smooth(cs, steps)
    requires held == NormalPartition(key, |files|) || held == AlternatePartition(key, |files|)
    requires cs[0].peers != [] && cs[|steps|].loop.result != Proxy.Running && TakenIn(files, key, {held}, |files|)
    ensures cs[|steps|].loop.result.Answered?
  {
    hide NormalPartition, AlternatePartition, TakenIn, AllSafe, FromHolder;
    if cs[|steps|].loop.result == Proxy.NoAvailablePeers {
      Proxy.RepliesAreTrue(cs, steps, |steps|);
      Proxy.NoAvailablePeersMeansAllFailed(cs, steps, |steps|, 0);
      Proxy.NoInitFailures(cs, steps, |steps|);
      var a :| Proxy.Ended(steps, |steps|, cs[0].peers[0], a) && !Proxy.Answers(a);
      var j :| 0 <= j < |steps| && steps[j] == Proxy.Send(cs[0].peers[0], a);
      TakenNeverMissed(steps[j].attempt, files, held, key);
      assert false;
    }
  }

  /** When nothing fails, a dataset key with holders of both its partitions is answered with 200, except
      that it is answered with 502 exactly when the holders of its normal partition all answer with an
      error of their own; then the key was taken for its alternate partition only. */
  lemma SmoothRequest(cs: seq<Proxy.Call>, steps: seq<Proxy.Step>, ds: seq<Proxy.Call>, more: seq<Proxy.Step>,
                      files: seq<seq<Record>>, key: Str)
    requires Request(cs, steps, ds, more, files, key) && AllSafe(files, |files|) && InDatasetAtAll(files, key)
    requires Smooth(cs, steps) && Smooth(ds, more) && cs[0].peers != [] && ds[0].peers != []
    ensures var a := Answer(cs, steps, ds, more, files, key);
            && (a == BadGateway502 || (a.Relayed? && a.code == 200))
            && (a == BadGateway502 <==> forall k :: 0 <= k < |cs[0].peers| ==> Proxy.EndedInError(steps, |steps|, cs[0].peers[k]))
            && (a == BadGateway502 ==> !TakenIn(files, key, {NormalPartition(key, |files|)}, |files|))
  {
    hide NormalPartition, AlternatePartition, TakenIn, AllSafe, FromHolder, InDatasetAtAll, Proxy.EndedInError, Proxy.Run;
    var p, q := NormalPartition(key, |files|), AlternatePartition(key, |files|);
    TakenForOne(files, key);
    if TakenIn(files, key, {p}, |files|) {
      SmoothCallAnswers(cs, steps, files, p, key);
      CallAnswer(cs, steps, files, p, key);
    } else {
      SmoothCallAnswers(ds, more, files, q, key);
    }
    RelayedAnswerIsRight(cs, steps, ds, more, files, key);
    UnavailableIff(cs, steps);
  }

  /** A smooth call has no answer exactly when every peer answered with an error. */
  lemma UnavailableIff(cs: seq<Proxy.Call>, steps: seq<Proxy.Step>)
    requires Proxy.Run(cs, steps) && Smooth(cs, steps) && cs[|steps|].loop.result != Proxy.Running
    ensures cs[|steps|].loop.result == Proxy.NoAvailablePeers
       <==> forall k :: 0 <= k < |cs[0].peers| ==> Proxy.EndedInError(steps, |steps|, cs[0].peers[k])
  {
    hide Proxy.EndedInError;
    Proxy.RepliesAreTrue(cs, steps, |steps|);
    Proxy.NoInitFailures(cs, steps, |steps|);
    if cs[|steps|].loop.result == Proxy.NoAvailablePeers {
      forall k | 0 <= k < |cs[0].peers| ensures Proxy.EndedInError(steps, |steps|, cs[0].peers[k]) {
        Proxy.NoAvailablePeersMeansAllFailed(cs, steps, |steps|, k);
      }
    } else {
      Proxy.AnswererDidNotFail(cs, steps, |steps|);
    }
  }

  // ---------------------------------------------------------------- when a key of the dataset is a 502

  ghost predicate HasHolder(files: seq<seq<Record>>, held: nat) {
    exists n :: Holder(n, files, held)
  }

  /** Some request for the key that nothing goes wrong with is answered with 502. */
  ghost predicate CanFail(files: seq<seq<Record>>, key: Str) {
    exists cs, steps, ds, more :: Fails(cs, steps, ds, more, files, key)
  }

  ghost predicate Fails(cs: seq<Proxy.Call>, steps: seq<Proxy.Step>, ds: seq<Proxy.Call>, more: seq<Proxy.Step>,
                        files: seq<seq<Record>>, key: Str)
  {
    && Request(cs, steps, ds, more, files, key)
    && Smooth(cs, steps) && Smooth(ds, more) && cs[0].peers != [] && ds[0].peers != []
    && Answer(cs, steps, ds, more, files, key) == BadGateway502
  }

  /** No key with one of the key's two partitions as its normal one is taken for the key's normal
      partition: a node that loads just that partition stores nothing under either. */
  ghost predicate NothingUnder(files: seq<seq<Record>>, key: Str)
    requires files != []
  {
    forall k :: TakenIn(files, k, {NormalPartition(key, |files|)}, |files|) ==>
                  && NormalPartition(k, |files|) != NormalPartition(key, |files|)
                  && NormalPartition(k, |files|) != AlternatePartition(key, |files|)
  }

  /** A holder of the normal partition that answers 500 stores nothing under either partition. */
  lemma FailingHolder(n: Node.Node, files: seq<seq<Record>>, key: Str)
    requires files != [] && AllSafe(files, |files|) && Holder(n, files, NormalPartition(key, |files|))
    requires Code(Node.Serve(n, key, true)) == 500
    ensures NothingUnder(files, key)
  {
    hide NormalPartition, AlternatePartition, TakenIn, AllSafe, Node.AddedBy, Node.Life, Node.LoadedBy, Blocks.Get;
    var ns, es, i: nat :| Node.Life(ns, es, files) && i < |ns| && ns[i] == n;
    var p := NormalPartition(key, |files|);
    Node.LookupExact(ns, es, files, i, key);
    Node.UnavailableExact(ns, es, files, i, key);
    forall k | TakenIn(files, k, {p}, |files|) ensures Node.AddedBy(files, k, n.loads) {
      TakenInPointwise(files, k, Node.Loaded(n), |files|);
      Node.SafeAddedBy(files, k, n.loads);
    }
  }

  /** Conversely, a node that loads just the normal partition is a holder that answers 500. */
  lemma FailingHolderExists(files: seq<seq<Record>>, key: Str) returns (n: Node.Node)
    requires files != [] && AllSafe(files, |files|) && NothingUnder(files, key)
    requires HasHolder(files, NormalPartition(key, |files|))
    ensures Holder(n, files, NormalPartition(key, |files|)) && Code(Node.Serve(n, key, true)) == 500
  {
    hide NormalPartition, AlternatePartition, TakenIn, AllSafe, Node.AddedBy, Node.Life, ScanFiles, Blocks.Get;
    var p := NormalPartition(key, |files|);
    HolderMeansLoadable(files, p);
    var ns, es := Node.OneLoad(files, p);
    n := ns[1];
    assert InLife(n, files);
    assert Node.Loaded(n) == {p};
    forall k | Node.AddedBy(files, k, n.loads) ensures TakenIn(files, k, {p}, |files|) {
      Node.SafeAddedBy(files, k, n.loads);
    }
    Node.UnavailableExact(ns, es, files, 1, key);
  }

  /** A partition that some node holds can be loaded on its own. */
  lemma HolderMeansLoadable(files: seq<seq<Record>>, held: nat)
    requires files != [] && HasHolder(files, held)
    ensures ScanFiles(files, {held}, |files|).end == Finished
  {
    hide ScanFiles, Node.Life;
    var n :| Holder(n, files, held);
    var ns, es, i: nat :| Node.Life(ns, es, files) && i < |ns| && ns[i] == n;
    Node.LifeOk(ns, es, files, i);
    var b :| b in n.loads && held in b;
    FinishedForOne(files, b, held, |files|);
  }

  /** A finished call to one holder of a partition. */
  lemma CallOneHolder(n: Node.Node, files: seq<seq<Record>>, held: nat, key: Str) returns (cs: seq<Proxy.Call>, steps: seq<Proxy.Step>)
    requires Holder(n, files, held)
    ensures AsksHolders(cs, steps, files, held, key) && Smooth(cs, steps) && cs[0].peers != []
    ensures cs[|steps|].loop.result != Proxy.Running
    ensures Code(Node.Serve(n, key, true)) == 500 ==> cs[|steps|].loop.result == Proxy.NoAvailablePeers
  {
    hide Holder, Node.Serve, Proxy.Run;
    cs, steps := Proxy.OnePeerCall("peer", Code(Node.Serve(n, key, true)));
  }

  /** For a key of the dataset, and holders of both its partitions: a request that nothing goes wrong with
      can be answered with 502 if and only if the dataset has nothing for a holder of the normal partition
      alone to store under either partition. */
  lemma BadGatewayIff(files: seq<seq<Record>>, key: Str)
    requires files != [] && AllSafe(files, |files|) && InDatasetAtAll(files, key)
    requires HasHolder(files, NormalPartition(key, |files|)) && HasHolder(files, AlternatePartition(key, |files|))
    ensures CanFail(files, key) <==> NothingUnder(files, key)
  {
    hide NormalPartition, AlternatePartition, TakenIn, AllSafe, InDatasetAtAll, Proxy.Run, Node.Serve, Holder, NothingUnder;
    var p, q := NormalPartition(key, |files|), AlternatePartition(key, |files|);
    if cs, steps, ds, more :| Fails(cs, steps, ds, more, files, key) {
      FailureNeedsHolder(cs, steps, ds, more, files, key);
    }
    if NothingUnder(files, key) {
      var n := FailingHolderExists(files, key);
      var cs, steps := CallOneHolder(n, files, p, key);
      var m :| Holder(m, files, q);
      var ds, more := CallOneHolder(m, files, q, key);
      assert Fails(cs, steps, ds, more, files, key);
    }
  }

  lemma FailureNeedsHolder(cs: seq<Proxy.Call>, steps: seq<Proxy.Step>, ds: seq<Proxy.Call>, more: seq<Proxy.Step>,
                           files: seq<seq<Record>>, key: Str)
    requires Fails(cs, steps, ds, more, files, key) && AllSafe(files, |files|) && InDatasetAtAll(files, key)
    ensures NothingUnder(files, key)
  {
    hide NormalPartition, AlternatePartition, TakenIn, AllSafe, InDatasetAtAll, Proxy.Init, Proxy.Moves, Node.Serve, Holder, NothingUnder;
    SmoothRequest(cs, steps, ds, more, files, key);
    var w := cs[0].peers[0];
    assert Proxy.EndedInError(steps, |steps|, w);
    var a :| Proxy.Ended(steps, |steps|, w, a) && !Proxy.Answers(a);
    var j :| 0 <= j < |steps| && steps[j] == Proxy.Send(w, a);
    assert FromHolder(steps[j].attempt, files, NormalPartition(key, |files|), key);
    var n :| Holder(n, files, NormalPartition(key, |files|)) && a == Proxy.Status(Code(Node.Serve(n, key, true)));
    FailingHolder(n, files, key);
  }

  /** Some dataset with `total` safe files has the key, and holders of both its partitions, and yet a
      request for it can be answered with 502 though nothing goes wrong. */
  ghost predicate CanFailSomewhere(key: Str, total: nat) {
    exists files :: FailsIn(files, key, total)
  }

  ghost predicate FailsIn(files: seq<seq<Record>>, key: Str, total: nat) {
    && |files| == total && total > 0 && AllSafe(files, total) && InDatasetAtAll(files, key)
    && HasHolder(files, NormalPartition(key, total)) && HasHolder(files, AlternatePartition(key, total))
    && CanFail(files, key)
  }

  /** That happens to exactly the keys that a holder of the normal partition can miss. */
  lemma BadGatewayPossibleIff(key: Str, total: nat)
    requires total > 0
    ensures var p, q := NormalPartition(key, total), AlternatePartition(key, total);
            CanFailSomewhere(key, total) <==> p != q && q < TWO_31
  {
    hide NormalPartition, AlternatePartition, TakenIn, AllSafe, CanFail, HasHolder;
    var p, q := NormalPartition(key, total), AlternatePartition(key, total);
    if files :| FailsIn(files, key, total) {
      BadGatewayIff(files, key);
      var v :| InDataset(files, key, v);
      if p == q || q >= TWO_31 {
        DatasetKeyTaken(files, key, v, {p}, total);
        assert false;
      }
    }
    if p != q && q < TWO_31 {
      var first := Node.KeyOfPartition(q, total);
      FailureWitness(first, key, total);
    }
  }

  /** One file, settled on the alternate partition by its first key. */
  lemma FailureWitness(first: Str, key: Str, total: nat)
    requires total > 0 && NormalPartition(key, total) != AlternatePartition(key, total) == NormalPartition(first, total)
    ensures CanFailSomewhere(key, total)
  {
    hide NormalPartition, AlternatePartition, TakenIn, ScanFiles, CanFail, HasHolder;
    var p, q := NormalPartition(key, total), AlternatePartition(key, total);
    var file := [Good(first, []), Good(key, [])];
    var files := Node.OneFile(file, total);
    assert Clean(file, total);
    Node.OneFileSafe(file, total);
    Node.OneFileFinishes(file, p, total);
    Node.OneFileFinishes(file, q, total);
    LoadableMeansHolder(files, p);
    LoadableMeansHolder(files, q);
    Node.OneFileAddsNothing(file, p, total);
    forall k ensures !TakenIn(files, k, {p}, total) {
      ScanFilesAddExactly(files, {p}, total, k);
      SafeAdded(files, k, {p}, total);
    }
    assert Good(key, []) in file && files[0] == file;
    assert InDataset(files, key, []);
    BadGatewayIff(files, key);
    assert FailsIn(files, key, total);
  }

  lemma LoadableMeansHolder(files: seq<seq<Record>>, held: nat)
    requires files != [] && ScanFiles(files, {held}, |files|).end == Finished
    ensures HasHolder(files, held)
  {
    hide ScanFiles, Node.Life;
    var ns, es := Node.OneLoad(files, held);
    assert InLife(ns[1], files);
    assert Holder(ns[1], files, held);
  }
}
