/** What the flags of the termination protocol mean: each one records that a message has been read, or the timer has fired, over
    every run. */
module History {
  import opened Messages
  import opened TerminationSpec
  import opened Shutdown
  import opened ShutdownInvariant
  import opened ShutdownTheorems
  import T = Traffic

  // What an observer has seen at node i. Its propagator: the application's signal; the timer firing after that; its receiver's
  // answer; the downstream receiver's request. Its receiver: the signal; its propagator's message, and whether that came before
  // the signal; and from whom an answer has come.
  datatype Seen = Seen(stop: bool, fired: bool, off: bool, asked: bool, stopped: bool, told: bool, early: bool, replies: set<nat>)

  const NOTHING: Seen := Seen(false, false, false, false, false, false, false, {})

  function Watch(s: System, a: Action, i: nat, h: Seen): Seen
    requires WellFormed(s) && i < |s.nodes|
  {
    var n := s.nodes[i];
    match a
    case FromApp(j) => if j == i && n.appToProp != [] && n.appToProp[0].InternalTerminate? then h.(stop := true) else h
    case Timer(j) => if j == i then h.(fired := h.fired || h.stop) else h
    case FromReceiver(j) => if j == i && n.toProp != [] && n.toProp[0].RecvTerminateAck? then h.(off := true) else h
    case FromDownstream(j) => if j == i then h.(asked := true) else h
    case AppTerminate(j) => if j == i then h.(stopped := true) else h
    case FromPropagator(j) =>
      if j == i && n.toRecv != [] && n.toRecv[0].PropTerminate? then h.(told := true, early := h.early || !h.stopped) else h
    case FromWire(j, _) =>
      if j < |s.nodes| && s.next[j] == i && s.wires[j] != [] && s.wires[j][0].TerminateAck? then h.(replies := h.replies + {j}) else h
    case _ => h
  }

  function WatchRun(s: System, actions: seq<Action>, check: bool, i: nat, h: Seen): Seen
    requires WellFormed(s) && i < |s.nodes|
    decreases |actions|
  {
    if actions == [] then h
    else match Step(s, actions[0], check)
      case Next(t) => if |t.nodes| == |s.nodes| then WatchRun(t, actions[1..], check, i, Watch(s, actions[0], i, h)) else h
      case _ => h
  }

  ghost predicate Agrees(n: Node, h: Seen) {
    && (n.prop.phase != PRun <==> h.stop) && (n.prop.timerOff <==> h.fired) && (n.prop.recvOff <==> h.off) && (n.prop.gotDs <==> h.asked)
    && (n.recv.phase != RRun <==> h.stopped) && (n.recv.gotProp <==> h.early) && (n.recv.repliedProp <==> h.told && h.stopped)
    && (h.early ==> h.told) && (h.told && !h.stopped ==> h.early) && n.recv.acked == h.replies
  }

  ghost predicate Keeps(s: System, a: Action, t: System, i: nat)
    requires WellFormed(s) && i < |s.nodes|
  {
    |t.nodes| == |s.nodes| && forall h: Seen | Agrees(s.nodes[i], h) :: Agrees(t.nodes[i], Watch(s, a, i, h))
  }

  // What the invariant says of a node that a message arrives at.
  lemma Known(s: System, check: bool, i: nat)
    requires Inv(s, check) && i < |s.nodes|
    ensures WellFormed(s) && var n := s.nodes[i];
            && (n.appToProp != [] ==> n.prop.phase == PRun) && (n.appToRecv > 0 ==> n.recv.phase == RRun)
            && (n.recv.phase == RRun ==> !n.recv.repliedProp)
            && (n.toRecv != [] && n.toRecv[0].PropTerminate? ==> !n.recv.gotProp && !n.recv.repliedProp)
            && (n.prop.phase == PRun ==> !n.prop.timerOff)
  {
    hide AnswerOK, PropOK, TailOK, Edge;
    assert NodeOK(s.nodes[i], Peers(s, i), check);
  }

  lemma OthersKeep(s: System, a: Action, check: bool, i: nat)
    requires WellFormed(s) && i < |s.nodes| && Step(s, a, check).Next? && !T.Touches(s, a, i)
    ensures Keeps(s, a, Step(s, a, check).s, i)
  {
    hide Step;
    T.NotTouched(s, a, check, i);
  }

  // The propagator's steps.
  lemma FromAppKeeps(s: System, check: bool, i: nat)
    requires Inv(s, check) && i < |s.nodes| && DoFromApp(s, i).Next?
    ensures Keeps(s, FromApp(i), DoFromApp(s, i).s, i)
  {
    hide Inv, Keeps;
    Known(s, check, i);
    if s.nodes[i].appToProp[0].Log? {
      AppLogKeeps(s, i);
    } else {
      AppStopKeeps(s, i);
    }
  }

  lemma AppLogKeeps(s: System, i: nat)
    requires WellFormed(s) && i < |s.nodes| && DoFromApp(s, i).Next? && s.nodes[i].appToProp[0].Log?
    ensures Keeps(s, FromApp(i), DoFromApp(s, i).s, i)
  {
    hide ApplyProp, OnInternalTerminate;
  }

  lemma AppStopKeeps(s: System, i: nat)
    requires WellFormed(s) && i < |s.nodes| && DoFromApp(s, i).Next? && s.nodes[i].appToProp[0].InternalTerminate?
    requires s.nodes[i].prop.phase == PRun
    ensures Keeps(s, FromApp(i), DoFromApp(s, i).s, i)
  {
    hide OnLog;
  }

  lemma FromThreadKeeps(s: System, i: nat, at: nat)
    requires WellFormed(s) && i < |s.nodes| && DoFromThread(s, i, at).Next?
    ensures Keeps(s, FromThread(i, at), DoFromThread(s, i, at).s, i)
  {}

  lemma TimerKeeps(s: System, check: bool, i: nat)
    requires Inv(s, check) && i < |s.nodes| && DoTimer(s, i).Next?
    ensures Keeps(s, Timer(i), DoTimer(s, i).s, i)
  {
    hide Inv;
    Known(s, check, i);
  }

  lemma OwnAckKeeps(s: System, i: nat)
    requires WellFormed(s) && i < |s.nodes| && DoOwnAck(s, i).Next?
    ensures Keeps(s, OwnAck(i), DoOwnAck(s, i).s, i)
  {}

  lemma FromReceiverKeeps(s: System, check: bool, i: nat)
    requires Inv(s, check) && i < |s.nodes| && DoFromReceiver(s, i).Next?
    ensures Keeps(s, FromReceiver(i), DoFromReceiver(s, i).s, i)
  {
    hide Edge;
    assert NodeOK(s.nodes[i], Peers(s, i), check);
    assert s.nodes[i].toProp[0] in s.nodes[i].toProp;
  }

  lemma FromDownstreamKeeps(s: System, i: nat)
    requires WellFormed(s) && i < |s.nodes| && DoFromDownstream(s, i).Next?
    ensures Keeps(s, FromDownstream(i), DoFromDownstream(s, i).s, i)
  {}

  // The receiver's steps.
  lemma FromPropagatorKeeps(s: System, check: bool, i: nat)
    requires Inv(s, check) && i < |s.nodes| && DoFromPropagator(s, i).Next?
    ensures Keeps(s, FromPropagator(i), DoFromPropagator(s, i).s, i)
  {
    hide Inv, Peers;
    Known(s, check, i);
  }

  lemma AppTerminateKeeps(s: System, check: bool, i: nat)
    requires Inv(s, check) && i < |s.nodes| && DoAppTerminate(s, i, check).Next?
    ensures Keeps(s, AppTerminate(i), DoAppTerminate(s, i, check).s, i)
  {
    hide Inv, Peers;
    Known(s, check, i);
  }

  lemma FromWireKeeps(s: System, j: nat, left: nat, check: bool, i: nat)
    requires Inv(s, check) && i < |s.nodes| && j < |s.nodes| && DoFromWire(s, j, left).Next?
    ensures Keeps(s, FromWire(j, left), DoFromWire(s, j, left).s, i)
  {
    hide NodeOK, Edge, Peers;
    if s.wires[j][0].TerminateAck? {
      T.AckedRunning(s, j, check);
    }
  }

  // The application's.
  lemma AppKeeps(s: System, a: Action, check: bool, i: nat)
    requires WellFormed(s) && i < |s.nodes| && Step(s, a, check).Next?
    requires At(a) == i && (a.AppLog? || a.ThreadLog? || a.SignalProp? || a.SignalRecv?)
    ensures Keeps(s, a, Step(s, a, check).s, i)
  {}

  lemma StepAgrees(s: System, a: Action, check: bool, i: nat)
    requires Inv(s, check) && i < |s.nodes| && Step(s, a, check).Next?
    ensures Keeps(s, a, Step(s, a, check).s, i)
  {
    hide NodeOK, Edge, Keeps, DoFromApp, DoFromThread, DoTimer, DoOwnAck, DoFromReceiver, DoFromDownstream, DoFromPropagator,
         DoAppTerminate, DoFromWire, DoAppLog, DoThreadLog, DoSignalProp, DoSignalRecv;
    if !T.Touches(s, a, i) {
      OthersKeep(s, a, check, i);
    } else {
      match a
      case FromApp(j) => FromAppKeeps(s, check, i);
      case FromThread(j, at) => FromThreadKeeps(s, i, at);
      case Timer(j) => TimerKeeps(s, check, i);
      case OwnAck(j) => OwnAckKeeps(s, i);
      case FromReceiver(j) => FromReceiverKeeps(s, check, i);
      case FromDownstream(j) => FromDownstreamKeeps(s, i);
      case FromPropagator(j) => FromPropagatorKeeps(s, check, i);
      case AppTerminate(j) => AppTerminateKeeps(s, check, i);
      case FromWire(j, left) => FromWireKeeps(s, j, left, check, i);
      case _ => AppKeeps(s, a, check, i);
    }
  }

  lemma {:induction false} RunAgrees(s: System, actions: seq<Action>, check: bool, i: nat, h: Seen)
    requires Inv(s, check) && i < |s.nodes| && Run(s, actions, check).Next? && Agrees(s.nodes[i], h)
    ensures |Run(s, actions, check).s.nodes| == |s.nodes|
    ensures Agrees(Run(s, actions, check).s.nodes[i], WatchRun(s, actions, check, i, h))
    decreases |actions|
  {
    hide NodeOK, Edge, Agrees, Watch, Step;
    if actions != [] {
      StepKeeps(s, actions[0], check);
      StepAgrees(s, actions[0], check, i);
      RunAgrees(Step(s, actions[0], check).s, actions[1..], check, i, Watch(s, actions[0], i, h));
    }
  }

  // What every reachable state has made of the messages read so far, and of nothing else. A propagator stops at the
  // application's signal; it has answered downstream exactly when it has been both stopped and asked; it has exited exactly when
  // it is stopped, its timer has fired since, its receiver has answered, and downstream is answered if there is one. A receiver
  // stops at its own signal; it has answered its propagator exactly when it is stopped and told; it has exited exactly when
  // that is so and every upstream propagator has replied, except that the shipped one, told early and expecting nobody, never
  // does.
  lemma FlagsMean(next: seq<nat>, actions: seq<Action>, check: bool, i: nat)
    requires (forall k | 0 <= k < |next| :: next[k] <= |next|) && i < |next| && Run(Start(next), actions, check).Next?
    ensures var s := Run(Start(next), actions, check).s;
            var h := WatchRun(Start(next), actions, check, i, NOTHING);
            |s.nodes| == |next|
            && var n := s.nodes[i];
               var tail := next[i] == |next|;
               var peers := set j: nat | j < |next| && next[j] == i;
               && (n.prop.phase == PRun <==> !h.stop)
               && (n.prop.phase == PTerm <==> h.stop && h.fired && h.off && (h.asked || tail))
               && n.acksSent == (if h.stop && h.asked then 1 else 0)
               && (n.recv.phase == RRun <==> !h.stopped)
               && (n.recv.phase == RTerm <==> h.stopped && h.told && peers <= h.replies && (check || peers != {} || !h.early))
               && n.recvAcksSent == (if h.stopped && h.told then 1 else 0)
  {
    hide Run, WatchRun, Step;
    StartKeeps(next, check);
    StartAgrees(next, i);
    RunKeeps(Start(next), actions, check);
    RunAgrees(Start(next), actions, check, i, NOTHING);
    var s := Run(Start(next), actions, check).s;
    PhasesMean(s, check, i, WatchRun(Start(next), actions, check, i, NOTHING));
  }

  lemma StartAgrees(next: seq<nat>, i: nat)
    requires (forall k | 0 <= k < |next| :: next[k] <= |next|) && i < |next|
    ensures Agrees(Start(next).nodes[i], NOTHING)
  {}

  lemma PhasesMean(s: System, check: bool, i: nat, h: Seen)
    requires Inv(s, check) && i < |s.nodes| && Agrees(s.nodes[i], h)
    ensures var n := s.nodes[i];
            var tail := s.next[i] == |s.next|;
            var peers := Peers(s, i);
            && (n.prop.phase == PTerm <==> h.stop && h.fired && h.off && (h.asked || tail))
            && n.acksSent == (if h.stop && h.asked then 1 else 0)
            && (n.recv.phase == RTerm <==> h.stopped && h.told && peers <= h.replies && (check || peers != {} || !h.early))
            && n.recvAcksSent == (if h.stopped && h.told then 1 else 0)
  {
    hide AppOK, WaitOK, EdgeOK;
    assert NodeOK(s.nodes[i], Peers(s, i), check);
    assert Edge(s, i);
  }
}
