/** Where the update traffic goes while threads terminate: what is read is what is held and sent, over every run. */
module Traffic {
  import opened Messages
  import opened TerminationSpec
  import opened Shutdown
  import opened ShutdownInvariant
  import opened ShutdownTheorems

  function OfMessage(m: OnWire): nat {
    if m.UpdateBuffer? then m.load else 0
  }

  // The load in a channel.
  function OnWires(w: seq<OnWire>): nat {
    if w == [] then 0 else OfMessage(w[0]) + OnWires(w[1..])
  }

  function Forwards(q: seq<FromRecv>): nat {
    if q == [] then 0 else (if q[0].Forwarded? then q[0].load else 0) + Forwards(q[1..])
  }

  // What a propagator holds: its store, and the buffer it has built but not sent.
  function Holds(p: Prop): nat {
    p.load + if p.waiting.Some? then p.waiting.value else 0
  }

  // What an observer counts at node i: the load its propagator has read while running, from the application and from the
  // receiver; the load it has put on its wire, and how much of that since it stopped; the load its receiver has passed on, and
  // how much of that the propagator has read; the own batches its receiver has read while running; and whether an own increment
  // has been read since the last flush.
  datatype Count = Count(read: nat, put: int, late: int, passed: nat, taken: nat, batches: nat, own: bool)

  const NONE: Count := Count(0, 0, 0, 0, 0, 0, false)

  function Running(s: System, i: nat): bool
    requires WellFormed(s) && i < |s.nodes|
  {
    s.nodes[i].prop.phase == PRun
  }

  // The load of the own increment this step reads at node i, if its propagator is running.
  function OwnRead(s: System, a: Action, i: nat): nat
    requires WellFormed(s) && i < |s.nodes|
  {
    var n := s.nodes[i];
    if !Running(s, i) then 0
    else match a
      case FromApp(j) => if j == i && n.appToProp != [] && n.appToProp[0].Log? then n.appToProp[0].load else 0
      case FromThread(j, at) => if j == i && at < |n.late| then n.late[at] else 0
      case _ => 0
  }

  // The load of the forwarded buffer this step reads at node i.
  function PeerRead(s: System, a: Action, i: nat): nat
    requires WellFormed(s) && i < |s.nodes|
  {
    var n := s.nodes[i];
    if a == FromReceiver(i) && n.toProp != [] && n.toProp[0].Forwarded? then n.toProp[0].load else 0
  }

  // The load this step's receiver has to pass on at node i.
  function ToPass(s: System, a: Action, i: nat): nat
    requires WellFormed(s) && i < |s.nodes|
  {
    if a.FromWire? && a.j < |s.nodes| && s.next[a.j] == i && s.wires[a.j] != [] && s.wires[a.j][0].UpdateBuffer?
       && s.nodes[i].recv.phase == RRun
    then a.left else 0
  }

  // The load that a receiver takes off node i's wire in this step.
  function TakenOff(s: System, a: Action, i: nat): nat
    requires WellFormed(s) && i < |s.nodes|
  {
    if a.FromWire? && a.j == i && s.wires[i] != [] then OfMessage(s.wires[i][0]) else 0
  }

  predicate ReadsBatch(s: System, a: Action, i: nat)
    requires WellFormed(s) && i < |s.nodes|
  {
    a == FromPropagator(i) && s.nodes[i].toRecv != [] && s.nodes[i].toRecv[0].MyUpdates? && s.nodes[i].recv.phase == RRun
  }

  predicate ReadsOwn(s: System, a: Action, i: nat)
    requires WellFormed(s) && i < |s.nodes|
  {
    Running(s, i) && ((a == FromApp(i) && s.nodes[i].appToProp != [] && s.nodes[i].appToProp[0].Log?)
                      || (a.FromThread? && a.i == i && a.at < |s.nodes[i].late|))
  }

  function Observe(s: System, a: Action, t: System, i: nat, c: Count): Count
    requires WellFormed(s) && WellFormed(t) && i < |s.nodes| == |t.nodes|
  {
    var put := OnWires(t.wires[i]) + TakenOff(s, a, i) - OnWires(s.wires[i]);
    Count(c.read + OwnRead(s, a, i) + (if Running(s, i) then PeerRead(s, a, i) else 0),
          c.put + put,
          c.late + (if Running(s, i) then 0 else put),
          c.passed + ToPass(s, a, i),
          c.taken + PeerRead(s, a, i),
          c.batches + (if ReadsBatch(s, a, i) then 1 else 0),
          if ReadsOwn(s, a, i) then true else if a == Timer(i) && s.nodes[i].prop.load > 0 then false else c.own)
  }

  // The count over a run that takes all its actions.
  function ObserveRun(s: System, actions: seq<Action>, check: bool, i: nat, c: Count): Count
    requires WellFormed(s) && i < |s.nodes|
    decreases |actions|
  {
    if actions == [] then c
    else match Step(s, actions[0], check)
      case Next(t) => if |t.nodes| == |s.nodes| then ObserveRun(t, actions[1..], check, i, Observe(s, actions[0], t, i, c)) else c
      case _ => c
  }

  // What the count and the node always agree on.
  ghost predicate Law(s: System, i: nat, c: Count)
    requires WellFormed(s) && i < |s.nodes|
  {
    var n := s.nodes[i];
    && (n.prop.phase == PRun ==> Holds(n.prop) + c.put == c.read)
    && (n.prop.phase != PRun ==> Holds(n.prop) == 0) && c.late == 0
    && Forwards(n.toProp) + c.taken == c.passed
    && n.recv.batches == (if n.recv.phase == RRun then c.batches else 0)
    && n.prop.ownDirty == c.own
  }

  lemma {:induction false} OnWiresAppend(w: seq<OnWire>, m: OnWire)
    ensures OnWires(w + [m]) == OnWires(w) + OfMessage(m)
    decreases |w|
  {
    if w == [] {
      assert (w + [m])[1..] == [];
    } else {
      OnWiresAppend(w[1..], m);
      assert (w + [m])[1..] == w[1..] + [m];
    }
  }

  lemma {:induction false} ForwardsAppend(q: seq<FromRecv>, m: FromRecv)
    ensures Forwards(q + [m]) == Forwards(q) + if m.Forwarded? then m.load else 0
    decreases |q|
  {
    if q == [] {
      assert (q + [m])[1..] == [];
    } else {
      ForwardsAppend(q[1..], m);
      assert (q + [m])[1..] == q[1..] + [m];
    }
  }

  // What the invariant says that the law needs.
  lemma Known(s: System, check: bool, i: nat)
    requires Inv(s, check) && i < |s.nodes|
    ensures WellFormed(s) && var n := s.nodes[i];
            && (n.prop.phase != PRun ==> n.prop.waiting.None? && n.prop.load == 0)
            && (n.prop.phase == PRun ==> !n.prop.timerOff)
            && (n.appToProp != [] ==> n.prop.phase == PRun)
            && (n.appToRecv > 0 ==> n.recv.phase == RRun)
  {
    hide AnswerOK, RecvOK, PropOK, TailOK, Edge;
    assert NodeOK(s.nodes[i], Peers(s, i), check);
  }

  // A step that leaves node i and its wire alone changes no count there.
  lemma Elsewhere(s: System, a: Action, check: bool, i: nat, c: Count)
    requires WellFormed(s) && i < |s.nodes| && Step(s, a, check).Next? && Law(s, i, c)
    requires var t := Step(s, a, check).s; |t.nodes| == |s.nodes| && t.nodes[i] == s.nodes[i] && t.wires[i] == s.wires[i]
    requires !(a.FromWire? && (a.j == i || (a.j < |s.nodes| && s.next[a.j] == i))) && At(a) != i
    ensures Law(Step(s, a, check).s, i, Observe(s, a, Step(s, a, check).s, i, c))
  {
    hide Step;
  }

  lemma AppLaw(s: System, a: Action, check: bool, i: nat, c: Count)
    requires WellFormed(s) && i < |s.nodes| && Step(s, a, check).Next? && Law(s, i, c)
    requires At(a) == i && (a.AppLog? || a.ThreadLog? || a.SignalProp? || a.SignalRecv?)
    ensures Law(Step(s, a, check).s, i, Observe(s, a, Step(s, a, check).s, i, c))
  {
    hide OnWires, Forwards;
  }

  lemma FromAppLaw(s: System, check: bool, i: nat, c: Count)
    requires Inv(s, check) && i < |s.nodes| && DoFromApp(s, i).Next? && Law(s, i, c)
    ensures Law(DoFromApp(s, i).s, i, Observe(s, FromApp(i), DoFromApp(s, i).s, i, c))
  {
    hide Inv, Law, Observe;
    Known(s, check, i);
    if s.nodes[i].appToProp[0].Log? {
      AppLogLaw(s, i, c);
    } else {
      AppStopLaw(s, i, c);
    }
  }

  lemma AppLogLaw(s: System, i: nat, c: Count)
    requires WellFormed(s) && i < |s.nodes| && DoFromApp(s, i).Next? && Law(s, i, c)
    requires s.nodes[i].appToProp[0].Log? && s.nodes[i].prop.phase == PRun
    ensures Law(DoFromApp(s, i).s, i, Observe(s, FromApp(i), DoFromApp(s, i).s, i, c))
  {
    hide OnWires, Forwards, ApplyProp, OnInternalTerminate;
  }

  lemma AppStopLaw(s: System, i: nat, c: Count)
    requires WellFormed(s) && i < |s.nodes| && DoFromApp(s, i).Next? && Law(s, i, c)
    requires s.nodes[i].appToProp[0].InternalTerminate? && s.nodes[i].prop.phase == PRun
    ensures Law(DoFromApp(s, i).s, i, Observe(s, FromApp(i), DoFromApp(s, i).s, i, c))
  {
    hide OnWires, Forwards, OnLog;
    OnWiresAppend(s.wires[i], TerminateAck);
    assert s.wires[i] + [] == s.wires[i];
  }

  lemma FromThreadLaw(s: System, check: bool, i: nat, at: nat, c: Count)
    requires Inv(s, check) && i < |s.nodes| && DoFromThread(s, i, at).Next? && Law(s, i, c)
    ensures Law(DoFromThread(s, i, at).s, i, Observe(s, FromThread(i, at), DoFromThread(s, i, at).s, i, c))
  {
    hide OnWires, Forwards, Inv;
    Known(s, check, i);
  }

  lemma TimerLaw(s: System, check: bool, i: nat, c: Count)
    requires Inv(s, check) && i < |s.nodes| && DoTimer(s, i).Next? && Law(s, i, c)
    ensures Law(DoTimer(s, i).s, i, Observe(s, Timer(i), DoTimer(s, i).s, i, c))
  {
    hide OnWires, Forwards, Inv;
    Known(s, check, i);
    OnWiresAppend(s.wires[i], UpdateBuffer(s.nodes[i].prop.load));
    assert s.wires[i] + [] == s.wires[i];
  }

  lemma OwnAckLaw(s: System, check: bool, i: nat, c: Count)
    requires Inv(s, check) && i < |s.nodes| && DoOwnAck(s, i).Next? && Law(s, i, c)
    ensures Law(DoOwnAck(s, i).s, i, Observe(s, OwnAck(i), DoOwnAck(s, i).s, i, c))
  {
    hide OnWires, Forwards, Inv;
    Known(s, check, i);
    OnWiresAppend(s.wires[i], UpdateBuffer(s.nodes[i].prop.waiting.value));
  }

  lemma FromReceiverLaw(s: System, check: bool, i: nat, c: Count)
    requires Inv(s, check) && i < |s.nodes| && DoFromReceiver(s, i).Next? && Law(s, i, c)
    ensures Law(DoFromReceiver(s, i).s, i, Observe(s, FromReceiver(i), DoFromReceiver(s, i).s, i, c))
  {
    hide OnWires, Forwards, Inv;
    Known(s, check, i);
    ForwardsHead(s.nodes[i].toProp);
  }

  lemma FromDownstreamLaw(s: System, check: bool, i: nat, c: Count)
    requires Inv(s, check) && i < |s.nodes| && DoFromDownstream(s, i).Next? && Law(s, i, c)
    ensures Law(DoFromDownstream(s, i).s, i, Observe(s, FromDownstream(i), DoFromDownstream(s, i).s, i, c))
  {
    hide OnWires, Forwards, Inv;
    Known(s, check, i);
    OnWiresAppend(s.wires[i], TerminateAck);
    assert s.wires[i] + [] == s.wires[i];
  }

  lemma FromPropagatorLaw(s: System, i: nat, c: Count)
    requires WellFormed(s) && i < |s.nodes| && DoFromPropagator(s, i).Next? && Law(s, i, c)
    ensures Law(DoFromPropagator(s, i).s, i, Observe(s, FromPropagator(i), DoFromPropagator(s, i).s, i, c))
  {
    hide Law, Observe;
    if s.nodes[i].toRecv[0].MyUpdates? {
      OwnBatchLaw(s, i, c);
    } else {
      PropTerminateLaw(s, i, c);
    }
  }

  lemma OwnBatchLaw(s: System, i: nat, c: Count)
    requires WellFormed(s) && i < |s.nodes| && DoFromPropagator(s, i).Next? && Law(s, i, c) && s.nodes[i].toRecv[0].MyUpdates?
    ensures Law(DoFromPropagator(s, i).s, i, Observe(s, FromPropagator(i), DoFromPropagator(s, i).s, i, c))
  {
    hide OnWires, Forwards, Peers, OnPropTerminate;
    assert s.nodes[i].toProp + [] == s.nodes[i].toProp;
  }

  lemma PropTerminateLaw(s: System, i: nat, c: Count)
    requires WellFormed(s) && i < |s.nodes| && DoFromPropagator(s, i).Next? && Law(s, i, c) && s.nodes[i].toRecv[0].PropTerminate?
    ensures Law(DoFromPropagator(s, i).s, i, Observe(s, FromPropagator(i), DoFromPropagator(s, i).s, i, c))
  {
    hide OnWires, Forwards, Peers, OnMyUpdates;
    ForwardsAppend(s.nodes[i].toProp, RecvTerminateAck);
    assert s.nodes[i].toProp + [] == s.nodes[i].toProp;
  }

  lemma AppTerminateLaw(s: System, check: bool, i: nat, c: Count)
    requires Inv(s, check) && i < |s.nodes| && DoAppTerminate(s, i, check).Next? && Law(s, i, c)
    ensures Law(DoAppTerminate(s, i, check).s, i, Observe(s, AppTerminate(i), DoAppTerminate(s, i, check).s, i, c))
  {
    hide OnWires, Forwards, Inv, Peers;
    Known(s, check, i);
    ForwardsAppend(s.nodes[i].toProp, RecvTerminateAck);
    assert s.nodes[i].toProp + [] == s.nodes[i].toProp;
  }

  // A delivery from node j concerns node j's wire and the receiver downstream of it, which may be the same node.
  lemma BufferLaw(s: System, j: nat, left: nat, check: bool, i: nat, c: Count)
    requires Inv(s, check) && i < |s.nodes| && j < |s.nodes| && DoFromWire(s, j, left).Next? && s.wires[j][0].UpdateBuffer? && Law(s, i, c)
    ensures Law(DoFromWire(s, j, left).s, i, Observe(s, FromWire(j, left), DoFromWire(s, j, left).s, i, c))
  {
    hide Forwards, OnWires, Inv, Peers;
    Known(s, check, i);
    OnWiresHead(s.wires[j]);
    ForwardsAppend(s.nodes[i].toProp, Forwarded(left));
    assert s.nodes[i].toProp + [] == s.nodes[i].toProp;
  }

  lemma AckLaw(s: System, j: nat, check: bool, i: nat, c: Count)
    requires Inv(s, check) && i < |s.nodes| && j < |s.nodes| && DoFromWire(s, j, 0).Next? && s.wires[j][0].TerminateAck? && Law(s, i, c)
    ensures Law(DoFromWire(s, j, 0).s, i, Observe(s, FromWire(j, 0), DoFromWire(s, j, 0).s, i, c))
  {
    hide Forwards, OnWires, Inv, Peers;
    Known(s, check, i);
    OnWiresHead(s.wires[j]);
    AckedRunning(s, j, check);
  }

  lemma FromWireLaw(s: System, j: nat, left: nat, check: bool, i: nat, c: Count)
    requires Inv(s, check) && i < |s.nodes| && j < |s.nodes| && DoFromWire(s, j, left).Next? && Law(s, i, c)
    ensures Law(DoFromWire(s, j, left).s, i, Observe(s, FromWire(j, left), DoFromWire(s, j, left).s, i, c))
  {
    hide Inv, Law, Observe;
    Known(s, check, i);
    if s.wires[j][0].UpdateBuffer? {
      BufferLaw(s, j, left, check, i, c);
    } else {
      AckLaw(s, j, check, i, c);
    }
  }

  lemma OnWiresHead(w: seq<OnWire>)
    requires w != []
    ensures OnWires(w) == OfMessage(w[0]) + OnWires(w[1..])
  {}

  lemma ForwardsHead(q: seq<FromRecv>)
    requires q != []
    ensures Forwards(q) == (if q[0].Forwarded? then q[0].load else 0) + Forwards(q[1..])
  {}

  // An acknowledgement never reaches a receiver that is still running.
  lemma AckedRunning(s: System, j: nat, check: bool)
    requires Inv(s, check) && j < |s.nodes| && s.next[j] < |s.nodes| && s.wires[j] != [] && s.wires[j][0].TerminateAck?
    ensures s.nodes[s.next[j]].recv.phase != RRun
  {
    assert NodeOK(s.nodes[j], Peers(s, j), check) && Edge(s, j);
    AckMeansReplied(s.nodes[j], s.wires[j], Peers(s, j), check, j, s.nodes[s.next[j]].recv, s.subs[j]);
  }

  predicate Touches(s: System, a: Action, i: nat)
    requires WellFormed(s) && i < |s.nodes|
  {
    At(a) == i || (a.FromWire? && a.j < |s.nodes| && s.next[a.j] == i)
  }

  lemma NotTouched(s: System, a: Action, check: bool, i: nat)
    requires WellFormed(s) && i < |s.nodes| && Step(s, a, check).Next? && !Touches(s, a, i)
    ensures var t := Step(s, a, check).s;
            |t.nodes| == |s.nodes| && t.nodes[i] == s.nodes[i] && t.wires[i] == s.wires[i]
  {
    hide OnTimer, OnInternalTerminate, OnDsTerminate, OnOwnAck, OnLog, OnForwarded, OnRecvAck, OnAppTerminate, OnPropTerminate, Peers;
  }

  // Every step keeps the count and every node in agreement.
  lemma StepLaw(s: System, a: Action, check: bool, i: nat, c: Count)
    requires Inv(s, check) && i < |s.nodes| && Step(s, a, check).Next? && Law(s, i, c)
    ensures |Step(s, a, check).s.nodes| == |s.nodes| && Law(Step(s, a, check).s, i, Observe(s, a, Step(s, a, check).s, i, c))
  {
    hide NodeOK, Edge, Law, Observe, DoFromApp, DoFromThread, DoTimer, DoOwnAck, DoFromReceiver, DoFromDownstream, DoFromPropagator,
         DoAppTerminate, DoFromWire, DoAppLog, DoThreadLog, DoSignalProp, DoSignalRecv;
    if !Touches(s, a, i) {
      NotTouched(s, a, check, i);
      Elsewhere(s, a, check, i, c);
    } else {
      match a
      case FromApp(j) => FromAppLaw(s, check, i, c);
      case FromThread(j, at) => FromThreadLaw(s, check, i, at, c);
      case Timer(j) => TimerLaw(s, check, i, c);
      case OwnAck(j) => OwnAckLaw(s, check, i, c);
      case FromReceiver(j) => FromReceiverLaw(s, check, i, c);
      case FromDownstream(j) => FromDownstreamLaw(s, check, i, c);
      case FromPropagator(j) => FromPropagatorLaw(s, i, c);
      case AppTerminate(j) => AppTerminateLaw(s, check, i, c);
      case FromWire(j, left) => FromWireLaw(s, j, left, check, i, c);
      case _ => AppLaw(s, a, check, i, c);
    }
  }

  lemma {:induction false} RunLaw(s: System, actions: seq<Action>, check: bool, i: nat, c: Count)
    requires Inv(s, check) && i < |s.nodes| && Run(s, actions, check).Next? && Law(s, i, c)
    ensures |Run(s, actions, check).s.nodes| == |s.nodes|
    ensures Law(Run(s, actions, check).s, i, ObserveRun(s, actions, check, i, c))
    decreases |actions|
  {
    hide NodeOK, Edge, Law, Observe, Step;
    if actions != [] {
      StepKeeps(s, actions[0], check);
      StepLaw(s, actions[0], check, i, c);
      var t := Step(s, actions[0], check).s;
      RunLaw(t, actions[1..], check, i, Observe(s, actions[0], t, i, c));
    }
  }

  // Conservation, over every run and on every topology. While a propagator runs, the load it holds and the load it has put
  // on its wire are together all it has read; once it stops it holds nothing and puts nothing more. What a receiver has passed
  // on is what its propagator has read and what is still on its way there. A running receiver's queue is the own batches it
  // has read, a stopped one's is empty. And a propagator knows whether it has read an own increment since its last flush.
  lemma TrafficIsConserved(next: seq<nat>, actions: seq<Action>, check: bool, i: nat)
    requires (forall k | 0 <= k < |next| :: next[k] <= |next|) && i < |next| && Run(Start(next), actions, check).Next?
    ensures var c := ObserveRun(Start(next), actions, check, i, NONE);
            |Run(Start(next), actions, check).s.nodes| == |next|
            && var n := Run(Start(next), actions, check).s.nodes[i];
            && (n.prop.phase == PRun ==> n.prop.load + (if n.prop.waiting.Some? then n.prop.waiting.value else 0) + c.put == c.read)
            && (n.prop.phase != PRun ==> n.prop.load == 0 && n.prop.waiting.None?) && c.late == 0
            && Forwards(n.toProp) + c.taken == c.passed
            && n.recv.batches == (if n.recv.phase == RRun then c.batches else 0)
            && n.prop.ownDirty == c.own
  {
    hide Run, ObserveRun;
    StartKeeps(next, check);
    StartLaw(next, i);
    RunKeeps(Start(next), actions, check);
    RunLaw(Start(next), actions, check, i, NONE);
    Known(Run(Start(next), actions, check).s, check, i);
  }

  lemma StartLaw(next: seq<nat>, i: nat)
    requires (forall k | 0 <= k < |next| :: next[k] <= |next|) && i < |next|
    ensures Law(Start(next), i, NONE)
  {}

  // A flush takes the whole store. With an own increment in it the receiver is told first and the buffer is held back until
  // it answers; without, the buffer goes out at once.
  lemma FlushOrder(s: System, check: bool, i: nat)
    requires WellFormed(s) && i < |s.nodes| && Step(s, Timer(i), check).Next? && s.nodes[i].prop.load > 0
    ensures var n, t := s.nodes[i], Step(s, Timer(i), check).s;
            && t.nodes[i].prop.load == 0
            && if n.prop.ownDirty then
                 t.nodes[i].toRecv == n.toRecv + [MyUpdates] && t.wires[i] == s.wires[i] && t.nodes[i].prop.waiting == Some(n.prop.load)
               else
                 t.nodes[i].toRecv == n.toRecv && t.wires[i] == s.wires[i] + [UpdateBuffer(n.prop.load)]
  {
    assert s.nodes[i].toRecv + [] == s.nodes[i].toRecv && s.wires[i] + [] == s.wires[i];
  }

  // A propagator reads whatever has arrived unless it has terminated or waits for its receiver, and then only the answer.
  lemma PropagatorReads(s: System, check: bool, i: nat)
    requires WellFormed(s) && i < |s.nodes|
    ensures var n := s.nodes[i]; var idle := n.prop.waiting.None? && n.prop.phase != PTerm;
            && (Step(s, FromApp(i), check).Disabled? <==> n.appToProp == [] || !idle)
            && (forall at: nat :: Step(s, FromThread(i, at), check).Disabled? <==> at >= |n.late| || !idle)
            && (Step(s, FromReceiver(i), check).Disabled? <==> n.toProp == [] || !idle)
            && (Step(s, FromDownstream(i), check).Disabled? <==> s.subs[i] == 0 || !idle)
  {
    hide OnInternalTerminate, OnDsTerminate, OnLog, OnForwarded, OnRecvAck, ApplyProp, Peers;
    hide DoTimer, DoOwnAck, DoFromPropagator, DoAppTerminate, DoFromWire, DoAppLog, DoThreadLog, DoSignalProp, DoSignalRecv;
  }

  lemma PropagatorFlushes(s: System, check: bool, i: nat)
    requires WellFormed(s) && i < |s.nodes|
    ensures var n := s.nodes[i]; var idle := n.prop.waiting.None? && n.prop.phase != PTerm;
            && (Step(s, Timer(i), check).Disabled? <==> !idle || n.prop.timerOff || (n.prop.phase == PRun && n.prop.load == 0))
            && (Step(s, OwnAck(i), check).Disabled? <==> n.prop.waiting.None? || n.ownAcks == 0)
  {
    hide OnTimer, OnOwnAck, ApplyProp, Peers;
    hide DoFromApp, DoFromThread, DoFromReceiver, DoFromDownstream, DoFromPropagator, DoAppTerminate, DoFromWire,
         DoAppLog, DoThreadLog, DoSignalProp, DoSignalRecv;
  }

  // A receiver reads whatever has arrived from its own node unless it has terminated.
  lemma ReceiverReads(s: System, check: bool, i: nat)
    requires WellFormed(s) && i < |s.nodes|
    ensures var n := s.nodes[i];
            && (Step(s, FromPropagator(i), check).Disabled? <==> n.toRecv == [] || n.recv.phase == RTerm)
            && (Step(s, AppTerminate(i), check).Disabled? <==> n.appToRecv == 0 || n.recv.phase == RTerm)
  {
    hide OnMyUpdates, OnAppTerminate, ApplyRecv, Peers;
    hide DoFromApp, DoFromThread, DoTimer, DoOwnAck, DoFromReceiver, DoFromDownstream, DoFromWire,
         DoAppLog, DoThreadLog, DoSignalProp, DoSignalRecv;
  }

  // The application logs until it signals, and signals each thread once, the propagator first; what it sends comes last.
  lemma ApplicationActs(s: System, check: bool, i: nat)
    requires WellFormed(s) && i < |s.nodes|
    ensures var n := s.nodes[i];
            && (forall load: nat :: Step(s, AppLog(i, load), check).Disabled? <==> n.app != 0 || load == 0 || n.tail)
            && (forall load: nat :: Step(s, ThreadLog(i, load), check).Disabled? <==> n.app != 0 || load == 0 || n.tail)
            && (Step(s, SignalProp(i), check).Disabled? <==> n.app != 0) && (Step(s, SignalRecv(i), check).Disabled? <==> n.app != 1)
    ensures forall load: nat | Step(s, AppLog(i, load), check).Next? ::
              Step(s, AppLog(i, load), check).s == With(s, i, s.nodes[i].(appToProp := s.nodes[i].appToProp + [Log(load)]))
    ensures forall load: nat | Step(s, ThreadLog(i, load), check).Next? ::
              Step(s, ThreadLog(i, load), check).s == With(s, i, s.nodes[i].(late := s.nodes[i].late + [load]))
    ensures Step(s, SignalProp(i), check).Next? ==>
              Step(s, SignalProp(i), check).s == With(s, i, s.nodes[i].(app := 1, appToProp := s.nodes[i].appToProp + [InternalTerminate]))
    ensures Step(s, SignalRecv(i), check).Next? ==>
              Step(s, SignalRecv(i), check).s == With(s, i, s.nodes[i].(app := 2, appToRecv := s.nodes[i].appToRecv + 1))
  {
    hide Peers;
    hide DoFromApp, DoFromThread, DoTimer, DoOwnAck, DoFromReceiver, DoFromDownstream, DoFromPropagator, DoAppTerminate, DoFromWire;
  }

  // A receiver reads whatever its upstream has put on the wire, unless it has terminated.
  lemma DeliveriesArrive(s: System, check: bool, j: nat, left: nat)
    requires WellFormed(s) && j < |s.nodes|
    ensures Step(s, FromWire(j, left), check).Disabled?
       <==> || s.next[j] >= |s.nodes| || s.wires[j] == [] || s.nodes[s.next[j]].recv.phase == RTerm
            || (left > 0 && (s.wires[j][0].TerminateAck? || s.nodes[s.next[j]].tail))
  {
    hide Peers;
  }
}
