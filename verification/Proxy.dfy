/** `proxy.go`: asking the peers that have a key, one more each stage, under a total timeout.
    The loop, its attempt goroutines, the response channel and the timers are one state machine whose
    steps interleave freely; the clock is a natural number and timers fire when they are due. */
module Proxy {
  import opened Bytes

  /** What became of one HTTP attempt. */
  datatype Attempt = TransportError | Status(code: nat)

  /** `proxyAttempt`: 200 and 404 are answers, everything else is an error. */
  predicate Answers(a: Attempt) {
    a.Status? && (a.code == 200 || a.code == 404)
  }

  datatype Reply = Reply(peer: string, attempt: Attempt)

  datatype Result = Running | Answered(peer: string, code: nat) | NoAvailablePeers | TimedOut | Canceled

  /** The local variables of the loop. `cancels` are the keys of the map of cancel functions,
      `cancelled` those whose function was called; `failedInit` and `errored` record history. */
  datatype Loop = Loop(
    index: nat,
    outstanding: int,
    cancels: set<string>,
    cancelled: set<string>,
    contextCancelled: bool,
    failedInit: set<string>,
    errored: set<string>,
    result: Result)

  const START := Loop(0, 0, {}, {}, false, {}, {}, Running)

  /** The top of an iteration, up to the select. */
  function Top(l: Loop, peers: seq<string>, initOk: bool): Loop {
    if l.index < |peers| then
      var peer := peers[l.index];
      if initOk then l.(cancels := l.cancels + {peer}, outstanding := l.outstanding + 1)
      else l.(failedInit := l.failedInit + {peer})
    else if l.outstanding == 0 then l.(result := NoAvailablePeers)
    else l
  }

  /** What the select found. */
  datatype Selected = Response(reply: Reply) | TotalTimeout | ContextDone | StageTimeout

  function Select(l: Loop, e: Selected): Loop {
    match e
    case Response(r) =>
      if Answers(r.attempt)
      then l.(cancelled := l.cancelled + (l.cancels - {r.peer}), result := Answered(r.peer, r.attempt.code))
      else l.(cancelled := l.cancelled + {r.peer}, outstanding := l.outstanding - 1, errored := l.errored + {r.peer},
              index := l.index + 1)
    case TotalTimeout => l.(contextCancelled := true, result := TimedOut)
    case ContextDone => l.(result := Canceled)
    case StageTimeout => l.(index := l.index + 1)
  }

  // ---------------------------------------------------------------- the loop as a method

  /** The loop against a script: whether each request can be created, and what each select finds. */
  function Follow(l: Loop, peers: seq<string>, initOk: string -> bool, script: seq<Selected>): Loop
    decreases |script|
  {
    if l.result != Running then l
    else
      var t := Top(l, peers, l.index < |peers| && initOk(peers[l.index]));
      if t.result != Running || script == [] then t
      else Follow(Select(t, script[0]), peers, initOk, script[1..])
  }

  /** `proxy`, for as long as the script lasts. */
  method Proxy(peers: seq<string>, initOk: string -> bool, script: seq<Selected>) returns (l: Loop)
    ensures l == Follow(START, peers, initOk, script)
  {
    var peerIndex := 0;
    var outstanding := 0;
    var cancels: set<string> := {};
    var cancelled: set<string> := {};
    var failed: set<string> := {};
    var errs: set<string> := {};
    var i := 0;
    while true
      invariant 0 <= i <= |script|
      invariant Follow(START, peers, initOk, script)
             == Follow(Loop(peerIndex, outstanding, cancels, cancelled, false, failed, errs, Running), peers, initOk, script[i..])
      decreases |script| - i
    {
      if peerIndex < |peers| {
        var peer := peers[peerIndex];
        if initOk(peer) {
          cancels := cancels + {peer};
          outstanding := outstanding + 1;
        } else {
          failed := failed + {peer};
        }
      } else if outstanding == 0 {
        return Loop(peerIndex, outstanding, cancels, cancelled, false, failed, errs, NoAvailablePeers);
      }
      if i == |script| {
        return Loop(peerIndex, outstanding, cancels, cancelled, false, failed, errs, Running);
      }
      assert script[i..][1..] == script[i + 1..];
      match script[i] {
        case Response(res) =>
          if !Answers(res.attempt) {
            cancelled := cancelled + {res.peer};
            outstanding := outstanding - 1;
            errs := errs + {res.peer};
          } else {
            cancelled := cancelled + (cancels - {res.peer});
            return Loop(peerIndex, outstanding, cancels, cancelled, false, failed, errs, Answered(res.peer, res.attempt.code));
          }
        case TotalTimeout =>
          return Loop(peerIndex, outstanding, cancels, cancelled, true, failed, errs, TimedOut);
        case ContextDone =>
          return Loop(peerIndex, outstanding, cancels, cancelled, false, failed, errs, Canceled);
        case StageTimeout =>
      }
      peerIndex, i := peerIndex + 1, i + 1;
    }
  }

  // ---------------------------------------------------------------- the whole call

  /** `selecting` says that the loop is at its select. `flying` are the attempt goroutines that have not
      sent yet; `startedAt` records when each attempt was started. */
  datatype Call = Call(
    peers: seq<string>,
    total: nat,
    stage: nat,
    loop: Loop,
    selecting: bool,
    flying: set<string>,
    channel: seq<Reply>,
    now: nat,
    stageDue: nat,
    startedAt: map<string, nat>)

  datatype Step =
    | LoopTop(initOk: bool)
    | Send(peer: string, attempt: Attempt)
    | Receive
    | FireTotal
    | FireStage
    | CancelRequest
    | Tick

  ghost predicate Init(c: Call) {
    c == Call(c.peers, c.total, c.stage, START, false, {}, [], 0, 0, map[]) && Distinct(c.peers)
  }

  predicate Live(c: Call) {
    c.loop.result == Running
  }

  /** The channel has room for one reply per peer; a send into a full channel would block. */
  predicate CanSend(c: Call) {
    |c.channel| < |c.peers|
  }

  predicate Enabled(c: Call, step: Step) {
    match step
    case LoopTop(_) => Live(c) && !c.selecting
    case Send(peer, _) => peer in c.flying && CanSend(c)
    case Receive => Live(c) && c.selecting && c.channel != []
    case FireTotal => Live(c) && c.selecting && c.now >= c.total
    case FireStage => Live(c) && c.selecting && c.now >= c.stageDue
    case CancelRequest => Live(c) && c.selecting
    case Tick => !Live(c) || (c.selecting && c.now < c.stageDue && c.now < c.total)
  }

  function After(c: Call, step: Step): Call
    requires Enabled(c, step)
  {
    match step
    case LoopTop(initOk) =>
      var l := Top(c.loop, c.peers, initOk);
      var starts := initOk && c.loop.index < |c.peers|;
      c.(loop := l, selecting := true, stageDue := c.now + c.stage,
         flying := if starts then c.flying + {c.peers[c.loop.index]} else c.flying,
         startedAt := if starts then c.startedAt[c.peers[c.loop.index] := c.now] else c.startedAt)
    case Send(peer, attempt) => c.(flying := c.flying - {peer}, channel := c.channel + [Reply(peer, attempt)])
    case Receive => c.(loop := Select(c.loop, Response(c.channel[0])), channel := c.channel[1..], selecting := false)
    case FireTotal => c.(loop := Select(c.loop, TotalTimeout), selecting := false)
    case FireStage => c.(loop := Select(c.loop, StageTimeout), selecting := false)
    case CancelRequest => c.(loop := Select(c.loop, ContextDone), selecting := false)
    case Tick => c.(now := c.now + 1)
  }

  ghost predicate Run(cs: seq<Call>, steps: seq<Step>) {
    && |cs| == |steps| + 1
    && Init(cs[0])
    && forall i :: 0 <= i < |steps| ==> Moves(cs, steps, i)
  }

  ghost predicate Moves(cs: seq<Call>, steps: seq<Step>, i: nat)
    requires |cs| == |steps| + 1 && i < |steps|
  {
    Enabled(cs[i], steps[i]) && cs[i + 1] == After(cs[i], steps[i])
  }

  // ---------------------------------------------------------------- the invariant

  function Senders(channel: seq<Reply>): set<string> {
    set i | 0 <= i < |channel| :: channel[i].peer
  }

  function FirstPeers(peers: seq<string>, n: nat): set<string>
    requires n <= |peers|
  {
    set i | 0 <= i < n :: peers[i]
  }

  /** How many peers the loop has dealt with. */
  function Dealt(c: Call): (n: nat)
    ensures n <= |c.peers|
  {
    var n := if c.selecting then c.loop.index + 1 else c.loop.index;
    if n < |c.peers| then n else |c.peers|
  }

  /** Each started attempt is in exactly one place: flying, in the channel, or received as an error. */
  ghost predicate Tracked(cancels: set<string>, errored: set<string>, flying: set<string>, channel: seq<Reply>) {
    && cancels == flying + Senders(channel) + errored
    && flying !! Senders(channel)
    && errored !! flying + Senders(channel)
    && (forall i, j :: 0 <= i < j < |channel| ==> channel[i].peer != channel[j].peer)
  }

  /** `n` peers were dealt with: each of them started, or its request could not be created. */
  ghost predicate Accounted(outstanding: int, cancels: set<string>, errored: set<string>, failedInit: set<string>, peers: seq<string>, n: nat)
    requires n <= |peers|
  {
    && outstanding == |cancels| - |errored|
    && cancels + failedInit == FirstPeers(peers, n)
    && cancels !! failedInit
  }

  ghost predicate RunningOk(c: Call) {
    && Tracked(c.loop.cancels, c.loop.errored, c.flying, c.channel)
    && Accounted(c.loop.outstanding, c.loop.cancels, c.loop.errored, c.loop.failedInit, c.peers, Dealt(c))
    && c.loop.cancelled == c.loop.errored
    && !c.loop.contextCancelled
  }

  /** After the answer the winner is the one attempt that is neither flying, nor in the channel, nor an
      error. */
  ghost predicate Won(c: Call, winner: string) {
    && winner in c.loop.cancels
    && c.loop.cancelled == c.loop.cancels - {winner}
    && !c.loop.contextCancelled
  }

  /** Replies sent and still to be sent fit into the channel, whatever the result. */
  ghost predicate Fits(c: Call) {
    |c.flying| + |c.channel| <= |c.peers|
  }

  ghost predicate Inv(c: Call) {
    && Distinct(c.peers)
    && Fits(c)
    && match c.loop.result
       case Running => RunningOk(c)
       case Answered(w, _) => Won(c, w)
       case NoAvailablePeers =>
         forall i :: 0 <= i < |c.peers| ==> c.peers[i] in c.loop.errored || c.peers[i] in c.loop.failedInit
       case _ => true
  }

  // ---------------------------------------------------------------- counting

  lemma {:induction false} SendersCount(channel: seq<Reply>)
    requires forall i, j :: 0 <= i < j < |channel| ==> channel[i].peer != channel[j].peer
    ensures |Senders(channel)| == |channel|
  {
    if channel != [] {
      var n := |channel| - 1;
      SendersCount(channel[..n]);
      assert Senders(channel) == Senders(channel[..n]) + {channel[n].peer};
    }
  }

  lemma SendersPop(channel: seq<Reply>)
    requires channel != [] && forall i, j :: 0 <= i < j < |channel| ==> channel[i].peer != channel[j].peer
    ensures Senders(channel[1..]) == Senders(channel) - {channel[0].peer}
    ensures channel[0].peer in Senders(channel)
  {
    forall p | p in Senders(channel) - {channel[0].peer} ensures p in Senders(channel[1..]) {
      var i :| 0 <= i < |channel| && channel[i].peer == p;
      assert channel[1..][i - 1].peer == p;
    }
  }

  lemma SendersPush(channel: seq<Reply>, r: Reply)
    ensures Senders(channel + [r]) == Senders(channel) + {r.peer}
  {
    forall p | p in Senders(channel) + {r.peer} ensures p in Senders(channel + [r]) {
      if p in Senders(channel) {
        var i :| 0 <= i < |channel| && channel[i].peer == p;
        assert (channel + [r])[i].peer == p;
      } else {
        assert (channel + [r])[|channel|].peer == p;
      }
    }
  }

  lemma FirstPeersNext(peers: seq<string>, n: nat)
    requires n < |peers| && Distinct(peers)
    ensures FirstPeers(peers, n + 1) == FirstPeers(peers, n) + {peers[n]} && peers[n] !in FirstPeers(peers, n)
  {
  }

  lemma {:induction false} FirstPeersCount(peers: seq<string>, n: nat)
    requires n <= |peers|
    ensures |FirstPeers(peers, n)| <= n
  {
    if n > 0 {
      FirstPeersCount(peers, n - 1);
      assert FirstPeers(peers, n) == FirstPeers(peers, n - 1) + {peers[n - 1]};
    }
  }

  /** No more attempts were started than peers were dealt with. */
  lemma StartedCount(c: Call)
    requires RunningOk(c)
    ensures |c.flying| + |c.channel| + |c.loop.errored| == |c.loop.cancels| <= |c.peers|
  {
    SendersCount(c.channel);
    assert |c.flying + Senders(c.channel)| == |c.flying| + |c.channel|;
    var first := FirstPeers(c.peers, Dealt(c));
    FirstPeersCount(c.peers, Dealt(c));
    assert c.loop.cancels <= first;
    SubsetCount(c.loop.cancels, first);
  }

  // ---------------------------------------------------------------- preservation

  lemma StartTracked(cancels: set<string>, errored: set<string>, flying: set<string>, channel: seq<Reply>, peer: string)
    requires Tracked(cancels, errored, flying, channel) && peer !in cancels
    ensures Tracked(cancels + {peer}, errored, flying + {peer}, channel)
  {
    hide Senders;
  }

  lemma DealtNext(outstanding: int, cancels: set<string>, errored: set<string>, failedInit: set<string>, peers: seq<string>, n: nat)
    requires n < |peers| && Distinct(peers) && Accounted(outstanding, cancels, errored, failedInit, peers, n)
    ensures peers[n] !in cancels
    ensures Accounted(outstanding + 1, cancels + {peers[n]}, errored, failedInit, peers, n + 1)
    ensures Accounted(outstanding, cancels, errored, failedInit + {peers[n]}, peers, n + 1)
  {
    hide FirstPeers, Distinct;
    FirstPeersNext(peers, n);
    var p := peers[n];
    var first := cancels + failedInit;
    assert p !in first;
    assert (cancels + {p}) + failedInit == first + {p};
    assert cancels + (failedInit + {p}) == first + {p};
    assert |cancels + {p}| == |cancels| + 1;
  }

  lemma StartKeeps(c: Call)
    requires Inv(c) && Enabled(c, LoopTop(true)) && c.loop.index < |c.peers|
    ensures Inv(After(c, LoopTop(true)))
  {
    hide Tracked, Accounted;
    var l, peer := c.loop, c.peers[c.loop.index];
    DealtNext(l.outstanding, l.cancels, l.errored, l.failedInit, c.peers, l.index);
    StartTracked(l.cancels, l.errored, c.flying, c.channel, peer);
    StartedCount(After(c, LoopTop(true)));
  }

  lemma InitFailureKeeps(c: Call)
    requires Inv(c) && Enabled(c, LoopTop(false)) && c.loop.index < |c.peers|
    ensures Inv(After(c, LoopTop(false)))
  {
    hide Tracked, Accounted;
    var l := c.loop;
    DealtNext(l.outstanding, l.cancels, l.errored, l.failedInit, c.peers, l.index);
  }

  lemma ExhaustedKeeps(c: Call, initOk: bool)
    requires Inv(c) && Enabled(c, LoopTop(initOk)) && c.loop.index >= |c.peers|
    ensures Inv(After(c, LoopTop(initOk)))
  {
    if c.loop.outstanding == 0 {
      AllFailed(c);
    }
  }

  lemma AllFailed(c: Call)
    requires RunningOk(c) && c.loop.outstanding == 0 && Dealt(c) == |c.peers|
    ensures forall i :: 0 <= i < |c.peers| ==> c.peers[i] in c.loop.errored || c.peers[i] in c.loop.failedInit
  {
    StartedCount(c);
    assert c.flying == {} && c.channel == [];
    forall i | 0 <= i < |c.peers| ensures c.peers[i] in c.loop.errored || c.peers[i] in c.loop.failedInit {
      assert c.peers[i] in FirstPeers(c.peers, Dealt(c));
    }
  }

  lemma TopKeeps(c: Call, initOk: bool)
    requires Inv(c) && Enabled(c, LoopTop(initOk))
    ensures Inv(After(c, LoopTop(initOk)))
  {
    hide Inv, After;
    if c.loop.index >= |c.peers| {
      ExhaustedKeeps(c, initOk);
    } else if initOk {
      StartKeeps(c);
    } else {
      InitFailureKeeps(c);
    }
  }

  lemma SendTracked(cancels: set<string>, errored: set<string>, flying: set<string>, channel: seq<Reply>, r: Reply)
    requires Tracked(cancels, errored, flying, channel) && r.peer in flying
    ensures Tracked(cancels, errored, flying - {r.peer}, channel + [r])
  {
    SendersPush(channel, r);
    forall i | 0 <= i < |channel| ensures channel[i].peer != r.peer {
      assert channel[i].peer in Senders(channel);
    }
  }

  lemma SendKeeps(c: Call, peer: string, attempt: Attempt)
    requires Inv(c) && Enabled(c, Send(peer, attempt))
    ensures Inv(After(c, Send(peer, attempt)))
  {
    hide Tracked, Accounted;
    assert c.flying == (c.flying - {peer}) + {peer};
    if Live(c) {
      SendTracked(c.loop.cancels, c.loop.errored, c.flying, c.channel, Reply(peer, attempt));
    }
  }

  /** The head of the channel was started, and has not been received before. */
  lemma ReceiveTracked(cancels: set<string>, errored: set<string>, flying: set<string>, channel: seq<Reply>)
    requires Tracked(cancels, errored, flying, channel) && channel != []
    ensures channel[0].peer in cancels && channel[0].peer !in errored && errored <= cancels
    ensures Tracked(cancels, errored + {channel[0].peer}, flying, channel[1..])
  {
    hide Senders;
    SendersPop(channel);
  }

  lemma ErrorKeeps(c: Call)
    requires Inv(c) && Enabled(c, Receive) && !Answers(c.channel[0].attempt)
    ensures Inv(After(c, Receive))
  {
    hide Tracked, FirstPeers;
    var l := c.loop;
    ReceiveTracked(l.cancels, l.errored, c.flying, c.channel);
    assert |l.errored + {c.channel[0].peer}| == |l.errored| + 1;
    assert Dealt(After(c, Receive)) == Dealt(c);
  }

  lemma AnswerKeeps(c: Call)
    requires Inv(c) && Enabled(c, Receive) && Answers(c.channel[0].attempt)
    ensures Inv(After(c, Receive))
  {
    hide Tracked, Accounted;
    var l := c.loop;
    ReceiveTracked(l.cancels, l.errored, c.flying, c.channel);
    assert l.errored + (l.cancels - {c.channel[0].peer}) == l.cancels - {c.channel[0].peer};
  }

  lemma StepKeeps(c: Call, step: Step)
    requires Inv(c) && Enabled(c, step)
    ensures Inv(After(c, step))
  {
    hide Tracked, Accounted, Answers;
    match step
    case LoopTop(initOk) => TopKeeps(c, initOk);
    case Send(peer, attempt) => SendKeeps(c, peer, attempt);
    case Receive => if Answers(c.channel[0].attempt) { AnswerKeeps(c); } else { ErrorKeeps(c); }
    case _ =>
  }

  lemma InitHolds(c: Call)
    requires Init(c)
    ensures Inv(c)
  {
    assert FirstPeers(c.peers, 0) == {};
  }

  lemma {:induction false} RunInvariant(cs: seq<Call>, steps: seq<Step>, i: nat)
    requires Run(cs, steps) && i < |cs|
    ensures Inv(cs[i])
  {
    hide Inv, After, Enabled;
    if i == 0 {
      InitHolds(cs[0]);
    } else {
      RunInvariant(cs, steps, i - 1);
      assert Moves(cs, steps, i - 1);
      StepKeeps(cs[i - 1], steps[i - 1]);
    }
  }

  // ---------------------------------------------------------------- what holds over every run

  /** While the call runs, `outstanding` is the number of attempts started minus errors received, and it
      is the number of attempts whose reply is still to come. */
  lemma OutstandingIsExact(cs: seq<Call>, steps: seq<Step>, i: nat)
    requires Run(cs, steps) && i < |cs| && Live(cs[i])
    ensures cs[i].loop.outstanding == |cs[i].loop.cancels| - |cs[i].loop.errored| == |cs[i].flying| + |cs[i].channel|
  {
    RunInvariant(cs, steps, i);
    StartedCount(cs[i]);
  }

  /** An attempt never blocks on its send, before or after the call has returned. */
  lemma SendsNeverBlock(cs: seq<Call>, steps: seq<Step>, i: nat, peer: string)
    requires Run(cs, steps) && i < |cs| && peer in cs[i].flying
    ensures CanSend(cs[i])
  {
    RunInvariant(cs, steps, i);
    assert |cs[i].flying| > 0;
  }

  /** Before step `i`, the attempt of the peer ended this way. */
  predicate Ended(steps: seq<Step>, i: nat, peer: string, attempt: Attempt)
    requires i <= |steps|
  {
    Send(peer, attempt) in steps[..i]
  }

  ghost predicate EndedInError(steps: seq<Step>, i: nat, peer: string)
    requires i <= |steps|
  {
    exists a :: Ended(steps, i, peer, a) && !Answers(a)
  }

  lemma EndedLater(steps: seq<Step>, i: nat)
    requires i < |steps|
    ensures forall p, a :: Ended(steps, i, p, a) ==> Ended(steps, i + 1, p, a)
    ensures forall p :: EndedInError(steps, i, p) ==> EndedInError(steps, i + 1, p)
    ensures steps[i].Send? ==> Ended(steps, i + 1, steps[i].peer, steps[i].attempt)
  {
    assert steps[..i + 1] == steps[..i] + [steps[i]];
    forall p, a | Ended(steps, i, p, a) ensures Ended(steps, i + 1, p, a) {
    }
    forall p | EndedInError(steps, i, p) ensures EndedInError(steps, i + 1, p) {
      var a :| Ended(steps, i, p, a) && !Answers(a);
      assert Ended(steps, i + 1, p, a);
    }
  }

  ghost predicate RepliesTrue(c: Call, steps: seq<Step>, i: nat)
    requires i <= |steps|
  {
    && (forall k :: 0 <= k < |c.channel| ==> Ended(steps, i, c.channel[k].peer, c.channel[k].attempt))
    && (forall p :: p in c.loop.errored ==> EndedInError(steps, i, p))
    && (c.loop.result.Answered? ==> Ended(steps, i, c.loop.result.peer, Status(c.loop.result.code)) && Answers(Status(c.loop.result.code)))
  }

  lemma ReplyStep(c: Call, steps: seq<Step>, i: nat)
    requires i < |steps| && RepliesTrue(c, steps, i) && Enabled(c, steps[i])
    ensures RepliesTrue(After(c, steps[i]), steps, i + 1)
  {
    hide Ended, EndedInError;
    EndedLater(steps, i);
    if steps[i].Receive? && !Answers(c.channel[0].attempt) {
      ErrorEnds(steps, i + 1, c.channel[0].peer, c.channel[0].attempt);
    }
  }

  lemma ErrorEnds(steps: seq<Step>, i: nat, peer: string, attempt: Attempt)
    requires i <= |steps| && Ended(steps, i, peer, attempt) && !Answers(attempt)
    ensures EndedInError(steps, i, peer)
  {
  }

  /** What the loop was told is what became of the attempts. */
  lemma {:induction false} RepliesAreTrue(cs: seq<Call>, steps: seq<Step>, i: nat)
    requires Run(cs, steps) && i < |cs|
    ensures RepliesTrue(cs[i], steps, i) && cs[i].peers == cs[0].peers
  {
    hide RepliesTrue, Enabled;
    if i == 0 {
      NoReplies(cs[0], steps);
    } else {
      RepliesAreTrue(cs, steps, i - 1);
      assert Moves(cs, steps, i - 1);
      ReplyStep(cs[i - 1], steps, i - 1);
    }
  }

  lemma NoReplies(c: Call, steps: seq<Step>)
    requires Init(c)
    ensures RepliesTrue(c, steps, 0)
  {
  }

  /** "No available peers" means that for every peer the request could not be created, or its attempt
      ended in an error. */
  lemma NoAvailablePeersMeansAllFailed(cs: seq<Call>, steps: seq<Step>, i: nat, k: nat)
    requires Run(cs, steps) && i < |cs| && cs[i].loop.result == NoAvailablePeers && k < |cs[i].peers|
    ensures EndedInError(steps, i, cs[i].peers[k]) || cs[i].peers[k] in cs[i].loop.failedInit
  {
    hide EndedInError;
    RunInvariant(cs, steps, i);
    RepliesAreTrue(cs, steps, i);
  }

  /** An answer is the reply of the peer that it is attributed to. */
  lemma AnswerIsThePeers(cs: seq<Call>, steps: seq<Step>, i: nat)
    requires Run(cs, steps) && i < |cs| && cs[i].loop.result.Answered?
    ensures var r := cs[i].loop.result;
            Ended(steps, i, r.peer, Status(r.code)) && (r.code == 200 || r.code == 404)
  {
    RepliesAreTrue(cs, steps, i);
  }

  /** Attempts that have ended are among those started and no longer flying, one per peer. */
  ghost predicate EndOnce(c: Call, steps: seq<Step>, i: nat)
    requires i <= |steps|
  {
    && c.flying <= c.loop.cancels
    && (forall j :: 0 <= j < i && steps[j].Send? ==> steps[j].peer in c.loop.cancels && steps[j].peer !in c.flying)
    && (forall j, k :: 0 <= j < k < i && steps[j].Send? && steps[k].Send? ==> steps[j].peer != steps[k].peer)
    && (c.loop.result.Answered? ==> c.loop.result.peer in c.loop.cancels)
    && (forall p :: p in c.loop.cancels ==> p in c.peers)
  }

  lemma NextPeerIsNew(c: Call)
    requires Inv(c) && Live(c) && !c.selecting && c.loop.index < |c.peers|
    ensures c.peers[c.loop.index] !in c.loop.cancels
  {
  }

  lemma EndOnceStep(c: Call, steps: seq<Step>, i: nat)
    requires i < |steps| && Inv(c) && EndOnce(c, steps, i) && Enabled(c, steps[i])
    ensures EndOnce(After(c, steps[i]), steps, i + 1)
  {
    hide Inv, Answers;
    if steps[i].LoopTop? && c.loop.index < |c.peers| {
      NextPeerIsNew(c);
    } else if steps[i].Receive? {
      ReceivedWasStarted(c);
    }
  }

  lemma ReceivedWasStarted(c: Call)
    requires Inv(c) && Live(c) && c.channel != []
    ensures c.channel[0].peer in c.loop.cancels
  {
    assert c.channel[0].peer in Senders(c.channel);
  }

  lemma {:induction false} AttemptsEndOnce(cs: seq<Call>, steps: seq<Step>, i: nat)
    requires Run(cs, steps) && i < |cs|
    ensures EndOnce(cs[i], steps, i)
  {
    hide Inv, After, Enabled;
    if i > 0 {
      AttemptsEndOnce(cs, steps, i - 1);
      RunInvariant(cs, steps, i - 1);
      assert Moves(cs, steps, i - 1);
      EndOnceStep(cs[i - 1], steps, i - 1);
    }
  }

  /** The peer that answers is one of those asked, and did not fail as well. */
  lemma AnswererDidNotFail(cs: seq<Call>, steps: seq<Step>, i: nat)
    requires Run(cs, steps) && i < |cs| && cs[i].loop.result.Answered?
    ensures cs[i].loop.result.peer in cs[i].peers && !EndedInError(steps, i, cs[i].loop.result.peer)
  {
    hide Init, Moves;
    var r := cs[i].loop.result;
    AnswerIsThePeers(cs, steps, i);
    AttemptsEndOnce(cs, steps, i);
    forall a | Ended(steps, i, r.peer, a) ensures Answers(a) {
      var j :| 0 <= j < i && steps[j] == Send(r.peer, Status(r.code));
      var k :| 0 <= k < i && steps[k] == Send(r.peer, a);
      assert j == k;
    }
  }

  /** The call to one peer, which replies at once. */
  lemma OnePeerCall(peer: string, code: nat) returns (cs: seq<Call>, steps: seq<Step>)
    ensures Run(cs, steps) && cs[0].peers == [peer] && LoopTop(false) !in steps
    ensures forall i :: 0 <= i < |steps| && steps[i].Send? ==> steps[i].attempt == Status(code)
    ensures cs[|steps|].loop.result == if code == 200 || code == 404 then Answered(peer, code) else NoAvailablePeers
  {
    var a := Call([peer], 1, 1, START, false, {}, [], 0, 0, map[]);
    var b := After(a, LoopTop(true));
    var c := After(b, Send(peer, Status(code)));
    var d := After(c, Receive);
    if code == 200 || code == 404 {
      cs, steps := [a, b, c, d], [LoopTop(true), Send(peer, Status(code)), Receive];
    } else {
      cs, steps := [a, b, c, d, After(d, LoopTop(true))], [LoopTop(true), Send(peer, Status(code)), Receive, LoopTop(true)];
    }
  }

  /** Without a request that could not be created, none is recorded. */
  lemma {:induction false} NoInitFailures(cs: seq<Call>, steps: seq<Step>, i: nat)
    requires Run(cs, steps) && i < |cs| && LoopTop(false) !in steps
    ensures cs[i].loop.failedInit == {}
  {
    if i > 0 {
      NoInitFailures(cs, steps, i - 1);
      assert Moves(cs, steps, i - 1);
      assert steps[i - 1] in steps;
    }
  }

  /** The total timeout, a cancelled request and the absence of peers each have their own result, and the
      context of the attempts is cancelled by the total timeout alone. */
  lemma {:induction false} ResultExact(cs: seq<Call>, steps: seq<Step>, i: nat)
    requires Run(cs, steps) && i < |cs|
    ensures cs[i].loop.result == TimedOut <==> FireTotal in steps[..i]
    ensures cs[i].loop.result == Canceled <==> CancelRequest in steps[..i]
    ensures cs[i].loop.contextCancelled <==> cs[i].loop.result == TimedOut
    ensures cs[i].loop.result == TimedOut ==> cs[i].total <= cs[i].now
  {
    hide Answers;
    if i > 0 {
      ResultExact(cs, steps, i - 1);
      assert Moves(cs, steps, i - 1);
      assert steps[..i] == steps[..i - 1] + [steps[i - 1]];
    }
  }

  /** A running call that has gone through all peers only waits while a reply is still to come. */
  lemma {:induction false} NeverWaitsForNothing(cs: seq<Call>, steps: seq<Step>, i: nat)
    requires Run(cs, steps) && i < |cs|
    ensures Live(cs[i]) && cs[i].selecting && cs[i].loop.index >= |cs[i].peers| ==> |cs[i].flying| + |cs[i].channel| > 0
  {
    hide Inv, Answers, After, Enabled;
    StillOutstanding(cs, steps, i);
    if Live(cs[i]) {
      OutstandingIsExact(cs, steps, i);
    }
  }

  lemma {:induction false} StillOutstanding(cs: seq<Call>, steps: seq<Step>, i: nat)
    requires Run(cs, steps) && i < |cs|
    ensures Live(cs[i]) && cs[i].selecting && cs[i].loop.index >= |cs[i].peers| ==> cs[i].loop.outstanding != 0
  {
    hide Answers;
    if i > 0 {
      StillOutstanding(cs, steps, i - 1);
      assert Moves(cs, steps, i - 1);
    }
  }

  // ---------------------------------------------------------------- the loop of a call is the method

  /** What the select finds in a step, if it is one of the loop's selects. */
  function Found(c: Call, step: Step): seq<Selected> {
    match step
    case Receive => if c.channel == [] then [] else [Response(c.channel[0])]
    case FireTotal => [TotalTimeout]
    case FireStage => [StageTimeout]
    case CancelRequest => [ContextDone]
    case _ => []
  }

  /** What the selects of the first `i` steps found. */
  function Script(cs: seq<Call>, steps: seq<Step>, i: nat): seq<Selected>
    requires |cs| == |steps| + 1 && i <= |steps|
  {
    if i == 0 then [] else Script(cs, steps, i - 1) + Found(cs[i - 1], steps[i - 1])
  }

  /** One more event for the loop. */
  lemma {:induction false} FollowNext(l: Loop, peers: seq<string>, initOk: string -> bool, script: seq<Selected>, e: Selected)
    ensures var t := Follow(l, peers, initOk, script);
            Follow(l, peers, initOk, script + [e]) ==
            if t.result != Running then t else Follow(Select(t, e), peers, initOk, [])
    decreases |script|
  {
    hide Top, Select;
    if l.result == Running {
      var t := Top(l, peers, l.index < |peers| && initOk(peers[l.index]));
      if script == [] {
        assert (script + [e])[1..] == [];
      } else if t.result == Running {
        assert (script + [e])[1..] == script[1..] + [e];
        FollowNext(Select(t, script[0]), peers, initOk, script[1..], e);
      }
    }
  }

  /** Which requests could be created, according to the run. */
  function Created(cs: seq<Call>): string -> bool
    requires cs != []
  {
    var failed := cs[|cs| - 1].loop.failedInit;
    p => p !in failed
  }

  ghost predicate Kept(c: Call) {
    c.loop.cancels !! c.loop.failedInit
  }

  lemma NextPeerNotFailed(c: Call)
    requires Inv(c) && Live(c) && !c.selecting && c.loop.index < |c.peers|
    ensures c.peers[c.loop.index] !in c.loop.failedInit
  {
  }

  /** A peer that was started is never among those that could not be, and neither set loses a peer. */
  lemma {:induction false} StartedOrFailed(cs: seq<Call>, steps: seq<Step>, i: nat, j: nat)
    requires Run(cs, steps) && i <= j < |cs|
    ensures Kept(cs[j]) && cs[i].loop.cancels <= cs[j].loop.cancels && cs[i].loop.failedInit <= cs[j].loop.failedInit
  {
    hide Inv, Answers;
    if j > 0 {
      StartedOrFailed(cs, steps, if i < j then i else j - 1, j - 1);
      RunInvariant(cs, steps, j - 1);
      assert Moves(cs, steps, j - 1);
      if steps[j - 1].LoopTop? && cs[j - 1].loop.index < |cs[j - 1].peers| {
        NextPeerIsNew(cs[j - 1]);
        NextPeerNotFailed(cs[j - 1]);
      }
    }
  }

  lemma CreatedAgrees(cs: seq<Call>, steps: seq<Step>, i: nat)
    requires Run(cs, steps) && i < |steps| && steps[i].LoopTop? && cs[i].loop.index < |cs[i].peers|
    ensures Created(cs)(cs[i].peers[cs[i].loop.index]) == steps[i].initOk
  {
    hide Inv;
    assert Moves(cs, steps, i);
    StartedOrFailed(cs, steps, i + 1, |steps|);
  }

  /** The loop of a running call that is not at its select is about to start an iteration. */
  function Resumed(c: Call, initOk: string -> bool): Loop {
    if Live(c) && !c.selecting then Top(c.loop, c.peers, c.loop.index < |c.peers| && initOk(c.peers[c.loop.index])) else c.loop
  }

  lemma SelectStep(c: Call, step: Step)
    requires Enabled(c, step) && Found(c, step) != []
    ensures var d := After(c, step);
            && Live(c) && c.selecting && |Found(c, step)| == 1
            && d.peers == c.peers && d.loop == Select(c.loop, Found(c, step)[0]) && !d.selecting
  {
    hide Select;
  }

  lemma OtherStep(c: Call, step: Step, initOk: string -> bool)
    requires Enabled(c, step) && Found(c, step) == [] && !step.LoopTop?
    ensures After(c, step).peers == c.peers && Resumed(After(c, step), initOk) == Resumed(c, initOk)
  {
    hide Top;
  }

  /** In every run, at each select and after the return, the loop is in the state in which `Proxy` ends on
      the events of that run: every theorem about runs is one about the method. */
  lemma {:induction false} RunsFollow(cs: seq<Call>, steps: seq<Step>, i: nat)
    requires Run(cs, steps) && i < |cs|
    ensures cs[i].peers == cs[0].peers
    ensures Resumed(cs[i], Created(cs)) == Follow(START, cs[0].peers, Created(cs), Script(cs, steps, i))
  {
    hide Top, Select, Created, Enabled, After, Found;
    if i > 0 {
      RunsFollow(cs, steps, i - 1);
      assert Moves(cs, steps, i - 1);
      var found, script := Found(cs[i - 1], steps[i - 1]), Script(cs, steps, i - 1);
      if found == [] {
        assert script + found == script;
        if steps[i - 1].LoopTop? {
          ResumedTop(cs, steps, i - 1);
        } else {
          OtherStep(cs[i - 1], steps[i - 1], Created(cs));
        }
      } else {
        SelectStep(cs[i - 1], steps[i - 1]);
        assert found == [found[0]];
        FollowNext(START, cs[0].peers, Created(cs), script, found[0]);
      }
    }
  }

  lemma ResumedTop(cs: seq<Call>, steps: seq<Step>, i: nat)
    requires Run(cs, steps) && i < |steps| && steps[i].LoopTop?
    ensures Resumed(cs[i + 1], Created(cs)) == Resumed(cs[i], Created(cs)) && cs[i + 1].peers == cs[i].peers
  {
    hide Created;
    assert Moves(cs, steps, i);
    if cs[i].loop.index < |cs[i].peers| {
      CreatedAgrees(cs, steps, i);
    }
  }

  /** On success every other started attempt is cancelled, and the winner and its context are not. */
  lemma WinnerAloneSurvives(cs: seq<Call>, steps: seq<Step>, i: nat)
    requires Run(cs, steps) && i < |cs| && cs[i].loop.result.Answered?
    ensures var l := cs[i].loop;
            && l.result.peer in l.cancels && !l.contextCancelled
            && (forall p :: p in l.cancels ==> (p in l.cancelled <==> p != l.result.peer))
  {
    RunInvariant(cs, steps, i);
  }

  // ---------------------------------------------------------------- timing

  /** The clock never runs ahead of the stages. */
  ghost predicate OnTime(c: Call) {
    && (Live(c) && !c.selecting ==> c.now <= c.loop.index * c.stage)
    && (Live(c) && c.selecting ==> c.now <= c.stageDue <= (c.loop.index + 1) * c.stage)
    && (forall p :: p in c.startedAt ==> StartedInTurn(c, p))
  }

  ghost predicate StartedInTurn(c: Call, p: string) {
    p in c.startedAt && exists k: nat :: k < |c.peers| && c.peers[k] == p && c.startedAt[p] <= k * c.stage
  }

  lemma StepOnTime(c: Call, step: Step)
    requires OnTime(c) && Enabled(c, step)
    ensures OnTime(After(c, step))
  {
    var t := After(c, step);
    if step.LoopTop? {
      assert (c.loop.index + 1) * c.stage == c.loop.index * c.stage + c.stage;
    }
    forall p | p in t.startedAt ensures StartedInTurn(t, p) {
      if p in c.startedAt && t.startedAt[p] == c.startedAt[p] {
        assert StartedInTurn(c, p);
      } else {
        assert t.peers[c.loop.index] == p;
      }
    }
  }

  lemma {:induction false} RunOnTime(cs: seq<Call>, steps: seq<Step>, i: nat)
    requires Run(cs, steps) && i < |cs|
    ensures OnTime(cs[i]) && cs[i].peers == cs[0].peers && cs[i].stage == cs[0].stage && cs[i].total == cs[0].total
  {
    if i > 0 {
      RunOnTime(cs, steps, i - 1);
      assert Moves(cs, steps, i - 1);
      StepOnTime(cs[i - 1], steps[i - 1]);
    }
  }

  /** The default stage timeout of `initCluster`. */
  function DefaultStage(total: nat, replication: nat): nat
    requires replication > 0
  {
    total / replication
  }

  /** The default is the largest stage timeout with which `replication` stages fit into the total. */
  lemma DefaultStageIsLargest(total: nat, replication: nat, stage: nat)
    requires replication > 0
    ensures stage * replication <= total <==> stage <= DefaultStage(total, replication)
  {
    var d := DefaultStage(total, replication);
    assert total == d * replication + total % replication;
    if stage <= d {
      MulMonotone(stage, d, replication);
    } else {
      MulMonotone(d + 1, stage, replication);
    }
  }

  lemma MulMonotone(a: nat, b: nat, s: nat)
    requires a <= b
    ensures a * s <= b * s
  {
  }

  lemma StagesFit(total: nat, replication: nat, k: nat)
    requires replication > 0 && total > 0 && k < replication
    ensures k * DefaultStage(total, replication) < total
  {
    var s := DefaultStage(total, replication);
    DivisionBound(total, replication);
    MulMonotone(k + 1, replication, s);
    SuccessorProduct(k, s);
  }

  lemma DivisionBound(total: nat, replication: nat)
    requires replication > 0
    ensures replication * (total / replication) <= total
  {
  }

  lemma SuccessorProduct(k: nat, s: nat)
    ensures (k + 1) * s == k * s + s
  {
  }

  /** With the default stage timeout and no more peers than replicas, every attempt that is started is
      started strictly before the total timeout; and at the total timeout, unless the call has returned,
      all peers have been dealt with. */
  lemma AllPeersTriedInTime(cs: seq<Call>, steps: seq<Step>, i: nat, replication: nat)
    requires Run(cs, steps) && i < |cs| && replication > 0 && cs[0].total > 0
    requires cs[0].stage == DefaultStage(cs[0].total, replication) && |cs[0].peers| <= replication
    ensures forall p :: p in cs[i].startedAt ==> cs[i].startedAt[p] < cs[i].total
    ensures Live(cs[i]) && cs[i].now >= cs[i].total ==> Dealt(cs[i]) == |cs[i].peers|
  {
    RunOnTime(cs, steps, i);
    var c := cs[i];
    forall p | p in c.startedAt ensures c.startedAt[p] < c.total {
      assert StartedInTurn(c, p);
      var k: nat :| k < |c.peers| && c.peers[k] == p && c.startedAt[p] <= k * c.stage;
      StagesFit(c.total, replication, k);
    }
    if Live(c) && c.now >= c.total && Dealt(c) < |c.peers| {
      StagesFit(c.total, replication, Dealt(c));
    }
  }
}
