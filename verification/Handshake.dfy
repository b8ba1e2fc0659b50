/** The start handshake between one receiver and the propagators it expects. What the receiver publishes is lost to a
    propagator until that propagator's subscription has taken effect. */
module Handshake {

  datatype Phase = Created | InitSent | AckAcked | Started        // a propagator
  datatype RecvPhase = Collecting | Acking | Running              // the receiver
  datatype Up = PropInit | PropInitAckAck | Update
  datatype Down = PropInitAck | PropStart

  datatype Peer = Peer(phase: Phase, subscribed: bool, up: seq<Up>, down: seq<Down>)

  // `count` is num_props; `inits` and `acks` record from whom the messages counted so far came.
  datatype System = System(peers: seq<Peer>, phase: RecvPhase, count: nat, inits: set<nat>, acks: set<nat>)

  datatype Action = Subscribe(i: nat) | Hello(i: nat) | Take(i: nat) | PublishAck | PublishStart | Listen(i: nat) | SendUpdate(i: nat)

  datatype Outcome = Disabled | Fatal | Next(s: System)

  function Start(n: nat): System {
    System(seq(n, i => Peer(Created, false, [], [])), Collecting, 0, {}, {})
  }

  function With(s: System, i: nat, p: Peer): System
    requires i < |s.peers|
  {
    s.(peers := s.peers[i := p])
  }

  // A subscription takes effect at some moment the propagator does not see.
  function DoSubscribe(s: System, i: nat): Outcome
    requires i < |s.peers|
  {
    if s.peers[i].subscribed then Disabled else Next(With(s, i, s.peers[i].(subscribed := true)))
  }

  // After its own receiver's EPRInit the propagator announces itself.
  function DoHello(s: System, i: nat): Outcome
    requires i < |s.peers|
  {
    var p := s.peers[i];
    if p.phase != Created then Disabled else Next(With(s, i, p.(phase := InitSent, up := p.up + [PropInit])))
  }

  // While collecting, only the size of a message is checked, and every kind has the same; later kinds matter.
  function DoTake(s: System, i: nat): Outcome
    requires i < |s.peers|
  {
    var p := s.peers[i];
    if p.up == [] then Disabled
    else
      var t := With(s, i, p.(up := p.up[1..]));
      match s.phase
      case Collecting =>
        if s.count == |s.peers| then Disabled
        else if s.count + 1 == |s.peers| then Next(t.(inits := s.inits + {i}, phase := Acking, count := 0))
        else Next(t.(inits := s.inits + {i}, count := s.count + 1))
      case Acking =>
        if s.count == |s.peers| then Disabled
        else if p.up[0] != PropInitAckAck then Fatal
        else Next(t.(acks := s.acks + {i}, count := s.count + 1))
      case Running => if p.up[0] != Update then Fatal else Next(t)
  }

  function Broadcast(s: System, m: Down): seq<Peer> {
    seq(|s.peers|, i requires 0 <= i < |s.peers| =>
      if s.peers[i].subscribed then s.peers[i].(down := s.peers[i].down + [m]) else s.peers[i])
  }

  function DoPublishAck(s: System): Outcome {
    if s.phase != Acking || s.count == |s.peers| then Disabled else Next(s.(peers := Broadcast(s, PropInitAck)))
  }

  function DoPublishStart(s: System): Outcome {
    if s.phase != Acking || s.count != |s.peers| then Disabled
    else Next(s.(peers := Broadcast(s, PropStart), phase := Running))
  }

  // The propagator's first message must be an acknowledgement; then it waits for the start, skipping anything else.
  function DoListen(s: System, i: nat): Outcome
    requires i < |s.peers|
  {
    var p := s.peers[i];
    if p.down == [] || p.phase == Created then Disabled
    else
      var q := p.(down := p.down[1..]);
      match p.phase
      case InitSent => if p.down[0] != PropInitAck then Fatal else Next(With(s, i, q.(phase := AckAcked, up := p.up + [PropInitAckAck])))
      case AckAcked => Next(With(s, i, if p.down[0] == PropStart then q.(phase := Started) else q))
      case Started => Fatal
  }

  function DoSendUpdate(s: System, i: nat): Outcome
    requires i < |s.peers|
  {
    var p := s.peers[i];
    if p.phase != Started then Disabled else Next(With(s, i, p.(up := p.up + [Update])))
  }

  function Step(s: System, a: Action): (r: Outcome)
    ensures r.Next? ==> |r.s.peers| == |s.peers|
  {
    match a
    case PublishAck => DoPublishAck(s)
    case PublishStart => DoPublishStart(s)
    case Subscribe(i) => if i >= |s.peers| then Disabled else DoSubscribe(s, i)
    case Hello(i) => if i >= |s.peers| then Disabled else DoHello(s, i)
    case Take(i) => if i >= |s.peers| then Disabled else DoTake(s, i)
    case Listen(i) => if i >= |s.peers| then Disabled else DoListen(s, i)
    case SendUpdate(i) => if i >= |s.peers| then Disabled else DoSendUpdate(s, i)
  }

  function Run(s: System, actions: seq<Action>): Outcome
    decreases |actions|
  {
    if actions == [] then Next(s)
    else match Step(s, actions[0])
      case Next(t) => Run(t, actions[1..])
      case stop => stop
  }

  // ---- the invariant ----

  ghost predicate OnlyAcks(down: seq<Down>) {
    forall m | m in down :: m == PropInitAck
  }

  ghost predicate AcksThenStart(down: seq<Down>) {
    down != [] && OnlyAcks(down[..|down| - 1]) && down[|down| - 1] == PropStart
  }

  ghost predicate PeerOK(p: Peer, init: bool, ack: bool, phase: RecvPhase) {
    && (match p.phase
        case Created => p.up == [] && !init && !ack
        case InitSent => !ack && p.up == if init then [] else [PropInit]
        case AckAcked => init && p.subscribed && p.up == if ack then [] else [PropInitAckAck]
        case Started => init && ack && p.subscribed && forall m | m in p.up :: m == Update)
    && (!p.subscribed ==> p.down == [])
    && (match phase
        case Collecting => p.down == [] && !ack && (p.phase == Created || p.phase == InitSent)
        case Acking => init && p.phase != Started && OnlyAcks(p.down)
        case Running => init && ack && (if p.phase == Started then p.down == [] else p.phase == AckAcked && AcksThenStart(p.down)))
  }

  ghost predicate Inv(s: System) {
    && |s.peers| > 0
    && (forall i: nat | i < |s.peers| :: PeerOK(s.peers[i], i in s.inits, i in s.acks, s.phase))
    && (forall i | i in s.inits :: i < |s.peers|)
    && (forall i | i in s.acks :: i < |s.peers|)
    && (s.phase == Collecting ==> s.count == |s.inits| < |s.peers| && s.acks == {})
    && (s.phase == Acking ==> s.count == |s.acks| <= |s.peers|)
  }

  // A set of indices with as many elements as there are indices has them all.
  lemma {:induction false} FullSet(a: set<nat>, n: nat)
    requires forall i | i in a :: i < n
    ensures |a| <= n
    ensures |a| == n ==> forall i: nat | i < n :: i in a
  {
    if n > 0 {
      var last := n - 1;
      if last in a {
        FullSet(a - {last}, last);
        assert |a| == |a - {last}| + 1;
      } else {
        FullSet(a, last);
      }
    } else {
      assert a == {};
    }
  }

  lemma TailAcks(down: seq<Down>)
    requires down != []
    ensures OnlyAcks(down) ==> OnlyAcks(down[1..]) && down[0] == PropInitAck
    ensures AcksThenStart(down) && down[0] == PropInitAck ==> AcksThenStart(down[1..])
    ensures AcksThenStart(down) && down[0] == PropStart ==> down[1..] == []
  {
    assert down[0] in down && forall m | m in down[1..] :: m in down;
    if AcksThenStart(down) && |down| > 1 {
      var init := down[..|down| - 1];
      assert down[0] in init;
      assert down[1..][..|down| - 2] == init[1..];
      assert forall m | m in init[1..] :: m in init;
    }
  }

  // A change to one peer that leaves the receiver as it is.
  lemma OnePeer(s: System, i: nat, p: Peer)
    requires Inv(s) && i < |s.peers| && PeerOK(p, i in s.inits, i in s.acks, s.phase)
    ensures Inv(With(s, i, p))
  {
    hide PeerOK;
  }

  lemma TakeInit(s: System, i: nat)
    requires Inv(s) && i < |s.peers| && s.phase == Collecting && DoTake(s, i).Next?
    ensures Inv(DoTake(s, i).s)
  {
    var t := DoTake(s, i).s;
    assert PeerOK(s.peers[i], i in s.inits, i in s.acks, s.phase);
    FullSet(s.inits + {i}, |s.peers|);
    forall j: nat | j < |s.peers| ensures PeerOK(t.peers[j], j in t.inits, j in t.acks, t.phase) {
      assert PeerOK(s.peers[j], j in s.inits, j in s.acks, s.phase);
    }
  }

  lemma TakeAck(s: System, i: nat)
    requires Inv(s) && i < |s.peers| && s.phase == Acking
    ensures !DoTake(s, i).Fatal?
    ensures DoTake(s, i).Next? ==> Inv(DoTake(s, i).s)
  {
    assert PeerOK(s.peers[i], i in s.inits, i in s.acks, s.phase);
    if DoTake(s, i).Next? {
      var t := DoTake(s, i).s;
      FullSet(s.acks + {i}, |s.peers|);
      forall j: nat | j < |s.peers| ensures PeerOK(t.peers[j], j in t.inits, j in t.acks, t.phase) {
        assert PeerOK(s.peers[j], j in s.inits, j in s.acks, s.phase);
      }
    }
  }

  lemma TakeUpdate(s: System, i: nat)
    requires Inv(s) && i < |s.peers| && s.phase == Running
    ensures !DoTake(s, i).Fatal?
    ensures DoTake(s, i).Next? ==> Inv(DoTake(s, i).s)
  {
    var p := s.peers[i];
    assert PeerOK(p, i in s.inits, i in s.acks, s.phase);
    if p.up != [] {
      assert p.up[0] in p.up && forall m | m in p.up[1..] :: m in p.up;
      OnePeer(s, i, p.(up := p.up[1..]));
    }
  }

  lemma TakeKeeps(s: System, i: nat)
    requires Inv(s) && i < |s.peers|
    ensures !DoTake(s, i).Fatal?
    ensures DoTake(s, i).Next? ==> Inv(DoTake(s, i).s)
  {
    hide Inv;
    match s.phase
    case Collecting => if DoTake(s, i).Next? { TakeInit(s, i); }
    case Acking => TakeAck(s, i);
    case Running => TakeUpdate(s, i);
  }

  lemma QuietKeeps(s: System, i: nat)
    requires Inv(s) && i < |s.peers|
    ensures DoSubscribe(s, i).Next? ==> Inv(DoSubscribe(s, i).s)
    ensures DoHello(s, i).Next? ==> Inv(DoHello(s, i).s)
    ensures DoSendUpdate(s, i).Next? ==> Inv(DoSendUpdate(s, i).s)
  {
    var p := s.peers[i];
    assert PeerOK(p, i in s.inits, i in s.acks, s.phase);
    if !p.subscribed {
      OnePeer(s, i, p.(subscribed := true));
    }
    if p.phase == Created {
      OnePeer(s, i, p.(phase := InitSent, up := p.up + [PropInit]));
    } else if p.phase == Started {
      OnePeer(s, i, p.(up := p.up + [Update]));
    }
  }

  lemma ListenKeeps(s: System, i: nat)
    requires Inv(s) && i < |s.peers|
    ensures !DoListen(s, i).Fatal?
    ensures DoListen(s, i).Next? ==> Inv(DoListen(s, i).s)
  {
    var p := s.peers[i];
    assert PeerOK(p, i in s.inits, i in s.acks, s.phase);
    if p.down != [] {
      TailAcks(p.down);
    }
  }

  lemma PublishKeeps(s: System)
    requires Inv(s)
    ensures DoPublishAck(s).Next? ==> Inv(DoPublishAck(s).s)
    ensures DoPublishStart(s).Next? ==> Inv(DoPublishStart(s).s)
  {
    FullSet(s.acks, |s.peers|);
    forall i: nat | i < |s.peers|
      ensures DoPublishStart(s).Next? ==> PeerOK(DoPublishStart(s).s.peers[i], i in s.inits, i in s.acks, Running)
    {
      assert PeerOK(s.peers[i], i in s.inits, i in s.acks, s.phase);
      assert (s.peers[i].down + [PropStart])[..|s.peers[i].down|] == s.peers[i].down;
    }
  }

  lemma StepKeeps(s: System, a: Action)
    requires Inv(s)
    ensures !Step(s, a).Fatal?
    ensures Step(s, a).Next? ==> Inv(Step(s, a).s)
  {
    hide Inv, DoTake, DoListen;
    match a
    case PublishAck => PublishKeeps(s);
    case PublishStart => PublishKeeps(s);
    case Take(i) => if i < |s.peers| { TakeKeeps(s, i); }
    case Listen(i) => if i < |s.peers| { ListenKeeps(s, i); }
    case Subscribe(i) => if i < |s.peers| { QuietKeeps(s, i); }
    case Hello(i) => if i < |s.peers| { QuietKeeps(s, i); }
    case SendUpdate(i) => if i < |s.peers| { QuietKeeps(s, i); }
  }

  lemma {:induction false} RunKeeps(s: System, actions: seq<Action>)
    requires Inv(s)
    ensures !Run(s, actions).Fatal?
    ensures Run(s, actions).Next? ==> Inv(Run(s, actions).s)
    decreases |actions|
  {
    hide Inv, Step;
    if actions != [] {
      StepKeeps(s, actions[0]);
      if Step(s, actions[0]).Next? {
        RunKeeps(Step(s, actions[0]).s, actions[1..]);
      }
    }
  }

  // ---- what the handshake is for ----

  // No message of the handshake is ever unexpected, and no update arrives before the receiver runs.
  lemma NothingUnexpected(n: nat, actions: seq<Action>)
    requires n > 0
    ensures !Run(Start(n), actions).Fatal?
    ensures Run(Start(n), actions).Next? ==>
              var s := Run(Start(n), actions).s;
              s.phase != Running ==> forall i: nat | i < |s.peers| :: Update !in s.peers[i].up && s.peers[i].phase != Started
  {
    RunKeeps(Start(n), actions);
    if Run(Start(n), actions).Next? {
      var s := Run(Start(n), actions).s;
      assert forall i: nat | i < |s.peers| :: PeerOK(s.peers[i], i in s.inits, i in s.acks, s.phase);
    }
  }

  // Nobody misses the start: it is published only once every expected propagator has received an acknowledgement and so is
  // subscribed; from then on each has started or will find the start as the last message in its channel.
  lemma NobodyMissesStart(n: nat, actions: seq<Action>)
    requires n > 0 && Run(Start(n), actions).Next?
    ensures var s := Run(Start(n), actions).s;
            (DoPublishStart(s).Next? ==> forall i: nat | i < |s.peers| :: s.peers[i].subscribed && s.peers[i].phase == AckAcked)
    ensures var s := Run(Start(n), actions).s;
            s.phase == Running ==> forall i: nat | i < |s.peers| ::
              s.peers[i].phase == Started || (s.peers[i].phase == AckAcked && AcksThenStart(s.peers[i].down))
  {
    hide Run;
    StartOK(n);
    RunKeeps(Start(n), actions);
    var s := Run(Start(n), actions).s;
    FullSet(s.acks, |s.peers|);
    assert forall i: nat | i < |s.peers| :: PeerOK(s.peers[i], i in s.inits, i in s.acks, s.phase);
  }

  lemma StartOK(n: nat)
    requires n > 0
    ensures Inv(Start(n))
  {}

  // ---- who may move, and what a move does ----

  // In every state a run can reach: the receiver reads whatever a propagator has sent, except that, once every propagator has
  // acknowledged, it starts before it reads on. It repeats its acknowledgement until everyone has answered, and starts when
  // everyone has. A propagator reads whatever has been published to it once it has announced itself, which it can do once, and
  // sends updates once it has started.
  lemma WhoMayMove(n: nat, actions: seq<Action>, i: nat)
    requires n > 0 && Run(Start(n), actions).Next? && i < |Run(Start(n), actions).s.peers|
    ensures var s := Run(Start(n), actions).s;
            var all := forall j: nat | j < |s.peers| :: j in s.acks;
            && (Step(s, Take(i)).Next? <==> s.peers[i].up != [] && !(s.phase == Acking && all))
            && (Step(s, PublishAck).Next? <==> s.phase == Acking && !all)
            && (Step(s, PublishStart).Next? <==> s.phase == Acking && all)
            && (Step(s, Listen(i)).Next? <==> s.peers[i].down != [] && s.peers[i].phase != Created)
            && (Step(s, Hello(i)).Next? <==> s.peers[i].phase == Created)
            && (Step(s, Subscribe(i)).Next? <==> !s.peers[i].subscribed)
            && (Step(s, SendUpdate(i)).Next? <==> s.peers[i].phase == Started)
  {
    hide Run, Inv;
    StartOK(n);
    RunKeeps(Start(n), actions);
    var s := Run(Start(n), actions).s;
    CountIsFull(s);
    TakeKeeps(s, i);
    ListenKeeps(s, i);
  }

  lemma CountIsFull(s: System)
    requires Inv(s)
    ensures s.phase == Collecting ==> s.count < |s.peers|
    ensures s.phase == Acking ==> (s.count == |s.peers| <==> forall j: nat | j < |s.peers| :: j in s.acks)
  {
    hide PeerOK;
    FullSet(s.acks, |s.peers|);
    if forall j: nat | j < |s.peers| :: j in s.acks {
      Everyone(s.acks, |s.peers|);
    }
  }

  // Every channel is first in, first out and loses nothing: a read takes the oldest message, and what is sent comes last. What
  // is published reaches exactly the subscribed. Nobody else's channels change.
  lemma ChannelsKeep(s: System, a: Action, i: nat)
    requires i < |s.peers| && Step(s, a).Next?
    ensures var p, q := s.peers[i], Step(s, a).s.peers[i];
            var published := if a == PublishAck then [PropInitAck] else if a == PublishStart then [PropStart] else [];
            && (a == Take(i) ==> p.up != [] && q == p.(up := p.up[1..]))
            && (a == SendUpdate(i) ==> q == p.(up := p.up + [Update]))
            && (a == Hello(i) ==> q == p.(up := p.up + [PropInit], phase := InitSent))
            && (a == Subscribe(i) ==> q == p.(subscribed := true))
            && (a == Listen(i) ==> p.down != [] && q.down == p.down[1..] && q.subscribed == p.subscribed
                                   && q.up == if p.phase == InitSent then p.up + [PropInitAckAck] else p.up)
            && (a.PublishAck? || a.PublishStart? ==> q == if p.subscribed then p.(down := p.down + published) else p)
            && (!a.PublishAck? && !a.PublishStart? && a.i != i ==> q == p)
  {}

  // How often an action occurs.
  function Times(actions: seq<Action>, a: Action): nat {
    if actions == [] then 0 else (if actions[0] == a then 1 else 0) + Times(actions[1..], a)
  }

  // Once the handshake is done it stays done, and from then on every update sent is read exactly once or still on its way.
  lemma {:induction false} UpdatesArrive(s: System, actions: seq<Action>, i: nat)
    requires Inv(s) && Done(s) && i < |s.peers| && Run(s, actions).Next?
    ensures var t := Run(s, actions).s;
            && Done(t) && |t.peers| == |s.peers| && t.phase == Running
            && |t.peers[i].up| + Times(actions, Take(i)) == |s.peers[i].up| + Times(actions, SendUpdate(i))
    decreases |actions|
  {
    hide Inv, Step;
    if actions != [] {
      var t := Step(s, actions[0]).s;
      StepKeeps(s, actions[0]);
      StaysDone(s, actions[0], i);
      UpdatesArrive(t, actions[1..], i);
    }
  }

  lemma StaysDone(s: System, a: Action, i: nat)
    requires Inv(s) && Done(s) && i < |s.peers| && Step(s, a).Next?
    ensures Done(Step(s, a).s)
    ensures |Step(s, a).s.peers[i].up| + (if a == Take(i) then 1 else 0) == |s.peers[i].up| + if a == SendUpdate(i) then 1 else 0
  {
    assert PeerOK(s.peers[i], i in s.inits, i in s.acks, s.phase);
    assert forall j: nat | j < |s.peers| :: PeerOK(s.peers[j], j in s.inits, j in s.acks, s.phase);
  }

  // ---- no circular wait ----

  function Rank(p: Peer, init: bool, ack: bool): nat {
    (match p.phase case Created => 3 case InitSent => 2 case AckAcked => 1 case Started => 0)
    + (if p.subscribed then 0 else 1) + (if init then 0 else 1) + (if ack then 0 else 1)
  }

  // What each peer and the receiver have still to do.
  function Todo(s: System, m: nat): nat
    requires m <= |s.peers|
  {
    if m == 0 then (if s.phase == Running then 0 else 1)
    else Todo(s, m - 1) + Rank(s.peers[m - 1], m - 1 in s.inits, m - 1 in s.acks)
  }

  function Unread(peers: seq<Peer>): nat {
    if peers == [] then 0 else |peers[0].down| + Unread(peers[1..])
  }

  ghost predicate Done(s: System) {
    s.phase == Running && forall i: nat | i < |s.peers| :: s.peers[i].phase == Started
  }

  lemma {:induction false} TodoFalls(s: System, t: System, m: nat, i: nat)
    requires m <= |s.peers| == |t.peers| && (t.phase == Running || s.phase != Running)
    requires forall j: nat | j < |s.peers| ::
               Rank(t.peers[j], j in t.inits, j in t.acks) <= Rank(s.peers[j], j in s.inits, j in s.acks)
    requires i < m ==> Rank(t.peers[i], i in t.inits, i in t.acks) < Rank(s.peers[i], i in s.inits, i in s.acks)
    ensures Todo(t, m) <= Todo(s, m)
    ensures i < m || (t.phase == Running && s.phase != Running) ==> Todo(t, m) < Todo(s, m)
  {
    hide Rank;
    if m > 0 {
      TodoFalls(s, t, m - 1, i);
    }
  }

  lemma {:induction false} UnreadFalls(peers: seq<Peer>, i: nat, p: Peer)
    requires i < |peers| && |p.down| < |peers[i].down|
    ensures Unread(peers[i := p]) < Unread(peers)
    decreases |peers|
  {
    if i > 0 {
      UnreadFalls(peers[1..], i - 1, p);
      assert peers[i := p][1..] == peers[1..][i - 1 := p];
    } else {
      assert peers[0 := p][1..] == peers[1..];
    }
  }

  ghost predicate Closer(s: System, t: System) {
    Todo(t, |t.peers|) < Todo(s, |s.peers|) || (Todo(t, |t.peers|) <= Todo(s, |s.peers|) && Unread(t.peers) < Unread(s.peers))
  }

  // A peer's own moves, and the receiver's reading, bring the handshake forward.
  lemma PeerMoves(s: System, a: Action, i: nat)
    requires Inv(s) && i < |s.peers| && Step(s, a).Next?
    requires a == Subscribe(i) || a == Hello(i) || (a == Take(i) && s.phase != Running) || a == Listen(i)
    ensures Closer(s, Step(s, a).s)
  {
    hide Inv, Todo, Unread;
    var t := Step(s, a).s;
    if a == Take(i) {
      Fresh(s, i);
    }
    if a == Listen(i) && t.peers[i].phase == s.peers[i].phase {
      TodoFalls(s, t, |s.peers|, |s.peers|);
      UnreadFalls(s.peers, i, t.peers[i]);
    } else {
      TodoFalls(s, t, |s.peers|, i);
    }
  }

  lemma StartMoves(s: System)
    requires DoPublishStart(s).Next?
    ensures Closer(s, DoPublishStart(s).s)
  {
    hide Todo, Unread;
    TodoFalls(s, DoPublishStart(s).s, |s.peers|, |s.peers|);
  }

  ghost predicate CanMove(s: System, i: nat)
    requires i < |s.peers|
  {
    DoSubscribe(s, i).Next? || DoHello(s, i).Next? || (s.phase != Running && DoTake(s, i).Next?) || DoListen(s, i).Next?
  }

  // Unless all have started, one or two steps bring the handshake forward; no participant can wait for another in a circle.
  lemma Forward(s: System) returns (actions: seq<Action>, t: System)
    requires Inv(s) && !Done(s)
    ensures 0 < |actions| <= 2 && Run(s, actions) == Next(t) && Inv(t) && |t.peers| == |s.peers| && Closer(s, t)
  {
    hide Inv, Closer, DoSubscribe, DoHello, DoTake, DoListen, DoPublishStart;
    if i: nat :| i < |s.peers| && CanMove(s, i) {
      var a := if DoSubscribe(s, i).Next? then Subscribe(i) else if DoHello(s, i).Next? then Hello(i)
               else if DoListen(s, i).Next? then Listen(i) else Take(i);
      actions, t := One(s, a);
      PeerMoves(s, a, i);
    } else if DoPublishStart(s).Next? {
      actions, t := One(s, PublishStart);
      StartMoves(s);
    } else {
      actions, t := Republish(s);
      CloserTodo(s, t);
    }
  }

  lemma CloserMeans(s: System, t: System)
    requires Closer(s, t)
    ensures Todo(t, |t.peers|) < Todo(s, |s.peers|) || (Todo(t, |t.peers|) == Todo(s, |s.peers|) && Unread(t.peers) < Unread(s.peers))
  {}

  lemma CloserTodo(s: System, t: System)
    requires Todo(t, |t.peers|) < Todo(s, |s.peers|)
    ensures Closer(s, t)
  {}

  lemma One(s: System, a: Action) returns (actions: seq<Action>, t: System)
    requires Inv(s) && Step(s, a).Next?
    ensures actions == [a] && t == Step(s, a).s && Run(s, actions) == Next(t) && Inv(t) && |t.peers| == |s.peers|
  {
    hide Inv, Step;
    actions, t := [a], Step(s, a).s;
    assert actions[1..] == [];
    StepKeeps(s, a);
  }

  // A handshake message is counted for the first time.
  lemma Fresh(s: System, i: nat)
    requires Inv(s) && i < |s.peers| && DoTake(s, i).Next? && s.phase != Running
    ensures s.phase == Collecting ==> i !in s.inits
    ensures s.phase == Acking ==> i !in s.acks
  {
    assert PeerOK(s.peers[i], i in s.inits, i in s.acks, s.phase);
  }

  // Everything has been read and nobody else can move: some propagator's acknowledgement was lost, and the receiver
  // publishes another.
  lemma Republish(s: System) returns (actions: seq<Action>, t: System)
    requires Inv(s) && !Done(s) && !DoPublishStart(s).Next?
    requires forall i: nat | i < |s.peers| :: !CanMove(s, i)
    ensures |actions| == 2 && Run(s, actions) == Next(t) && Inv(t) && |t.peers| == |s.peers|
    ensures Todo(t, |t.peers|) < Todo(s, |s.peers|)
  {
    hide Inv, Todo;
    var i := Missing(s);
    var first, u := One(s, PublishAck);
    assert u.peers[i].down == [PropInitAck] by { assert s.peers[i].down + [PropInitAck] == [PropInitAck]; }
    var second, v := One(u, Listen(i));
    actions, t := [PublishAck, Listen(i)], v;
    assert actions[1..] == second;
    forall j: nat | j < |s.peers|
      ensures Rank(t.peers[j], j in t.inits, j in t.acks) <= Rank(s.peers[j], j in s.inits, j in s.acks)
    {
      assert j != i ==> t.peers[j] == u.peers[j];
    }
    TodoFalls(s, t, |s.peers|, i);
  }

  lemma AllStuck(s: System, i: nat)
    requires Inv(s) && i < |s.peers| && !DoPublishStart(s).Next?
    requires !CanMove(s, i)
    ensures s.peers[i].subscribed && s.peers[i].down == []
    ensures s.phase == Running ==> s.peers[i].phase == Started
    ensures s.phase == Collecting ==> i in s.inits
    ensures s.phase == Acking ==> s.count < |s.peers| && (s.peers[i].phase == InitSent || i in s.acks)
  {
    assert PeerOK(s.peers[i], i in s.inits, i in s.acks, s.phase);
    ListenKeeps(s, i);
    TakeKeeps(s, i);
  }

  lemma Missing(s: System) returns (i: nat)
    requires Inv(s) && !Done(s) && !DoPublishStart(s).Next?
    requires forall j: nat | j < |s.peers| :: !CanMove(s, j)
    ensures i < |s.peers| && s.phase == Acking && s.count < |s.peers| && s.peers[i].phase == InitSent && s.peers[i].subscribed && s.peers[i].down == []
  {
    hide PeerOK;
    forall j: nat | j < |s.peers|
      ensures s.peers[j].subscribed && s.peers[j].down == []
      ensures s.phase == Running ==> s.peers[j].phase == Started
      ensures s.phase == Collecting ==> j in s.inits
      ensures s.phase == Acking ==> s.count < |s.peers| && (s.peers[j].phase == InitSent || j in s.acks)
    {
      AllStuck(s, j);
    }
    if forall j: nat | j < |s.peers| :: j in s.inits {
      Everyone(s.inits, |s.peers|);
    }
    if forall j: nat | j < |s.peers| :: j in s.acks {
      Everyone(s.acks, |s.peers|);
    }
    i :| i < |s.peers| && i !in s.acks;
  }

  lemma {:induction false} Everyone(a: set<nat>, n: nat)
    requires forall i: nat | i < n :: i in a
    ensures |a| >= n
  {
    if n > 0 {
      Everyone(a - {n - 1}, n - 1);
      assert |a| == |a - {n - 1}| + 1;
    }
  }

  // From every reachable state the handshake can be completed: all propagators start.
  lemma {:induction false} Completes(s: System) returns (actions: seq<Action>)
    requires Inv(s)
    ensures Run(s, actions).Next? && Done(Run(s, actions).s)
    decreases Todo(s, |s.peers|), Unread(s.peers)
  {
    hide Inv, Step, Todo, Unread, Done;
    if Done(s) {
      actions := [];
    } else {
      var first, t := Forward(s);
      CloserMeans(s, t);
      var rest := Completes(t);
      actions := first + rest;
      RunJoins(s, first, rest, t);
    }
  }

  lemma {:induction false} RunJoins(s: System, a: seq<Action>, b: seq<Action>, t: System)
    requires Run(s, a) == Next(t)
    ensures Run(s, a + b) == Run(t, b)
    decreases |a|
  {
    hide Step;
    if a == [] {
      assert a + b == b;
    } else {
      assert (a + b)[1..] == a[1..] + b;
      RunJoins(Step(s, a[0]).s, a[1..], b, t);
    }
  }
}
