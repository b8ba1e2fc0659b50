/** Shutdown: what holds over every run, that every run ends, and where. */
module ShutdownTheorems {
  import opened TerminationSpec
  import opened Shutdown
  import opened ShutdownInvariant

  // ---- every run keeps the invariant ----

  lemma StartKeeps(next: seq<nat>, check: bool)
    requires forall i | 0 <= i < |next| :: next[i] <= |next|
    ensures Inv(Start(next), check)
  {}

  lemma StepKeeps(s: System, a: Action, check: bool)
    requires Inv(s, check)
    ensures !Step(s, a, check).Fatal?
    ensures Step(s, a, check).Next? ==> Inv(Step(s, a, check).s, check)
  {
    hide NodeOK, Edge, DoAppLog, DoThreadLog, DoSignalProp, DoSignalRecv, DoFromApp, DoFromThread, DoTimer, DoOwnAck, DoFromReceiver, DoFromDownstream,
         DoFromPropagator, DoAppTerminate, DoFromWire;
    if At(a) < |s.nodes| {
      match a
      case AppLog(i, load) => AppLogKeeps(s, i, load, check); NeverFatal(s, a, check);
      case ThreadLog(i, load) => ThreadLogKeeps(s, i, load, check); NeverFatal(s, a, check);
      case FromThread(i, at) => FromThreadKeeps(s, i, at, check); NeverFatal(s, a, check);
      case SignalProp(i) => SignalPropKeeps(s, i, check);
      case SignalRecv(i) => SignalRecvKeeps(s, i, check);
      case FromApp(i) => FromAppKeeps(s, i, check); NeverFatal(s, a, check);
      case Timer(i) => TimerKeeps(s, i, check); NeverFatal(s, a, check);
      case OwnAck(i) => OwnAckKeeps(s, i, check); NeverFatal(s, a, check);
      case FromReceiver(i) => FromReceiverKeeps(s, i, check); NeverFatal(s, a, check);
      case FromDownstream(i) => FromDownstreamKeeps(s, i, check); NeverFatal(s, a, check);
      case FromPropagator(i) => FromPropagatorKeeps(s, i, check);
      case AppTerminate(i) => AppTerminateKeeps(s, i, check); NeverFatal(s, a, check);
      case FromWire(j, left) => FromWireKeeps(s, j, left, check); NeverFatal(s, a, check);
    }
  }

  lemma NeverFatal(s: System, a: Action, check: bool)
    requires WellFormed(s) && !a.SignalProp? && !a.SignalRecv? && !a.FromPropagator?
    ensures !Step(s, a, check).Fatal?
  {}

  lemma {:induction false} RunKeeps(s: System, actions: seq<Action>, check: bool)
    requires Inv(s, check)
    ensures !Run(s, actions, check).Fatal?
    ensures Run(s, actions, check).Next? ==> Inv(Run(s, actions, check).s, check)
    decreases |actions|
  {
    hide NodeOK, Edge, Step;
    if actions != [] {
      StepKeeps(s, actions[0], check);
      if Step(s, actions[0], check).Next? {
        RunKeeps(Step(s, actions[0], check).s, actions[1..], check);
      }
    }
  }

  // ---- safety ----

  // After replying, no handler of the propagator sends downstream again.
  lemma Replied(n: Node, peers: set<nat>, check: bool)
    requires NodeOK(n, peers, check) && n.prop.repliedDs
    ensures n.prop.waiting.None? && (n.tail || n.prop.gotDs) && OnTimer(n.prop).wire == []
    ensures n.appToProp != [] ==> OnInternalTerminate(n.prop).wire == []
    ensures OnTimer(n.prop).p.repliedDs && OnInternalTerminate(n.prop).p.repliedDs
  {}

  // The propagator's own steps.
  predicate ByProp(a: Action) {
    a.FromApp? || a.FromThread? || a.Timer? || a.OwnAck? || a.FromReceiver? || a.FromDownstream?
  }

  ghost predicate Silent(s: System, t: System, i: nat)
    requires WellFormed(s) && WellFormed(t) && i < |s.nodes| == |t.nodes|
  {
    t.nodes[i].prop.repliedDs && (t.wires[i] == s.wires[i] || (s.wires[i] != [] && t.wires[i] == s.wires[i][1..]))
  }

  lemma SilentProp(s: System, a: Action, check: bool, i: nat)
    requires Inv(s, check) && i < |s.nodes| && s.nodes[i].prop.repliedDs && Step(s, a, check).Next? && ByProp(a)
    ensures Silent(s, Step(s, a, check).s, i)
  {
    hide Edge, NodeOK, Peers, OnTimer, OnInternalTerminate;
    Replied(s.nodes[i], Peers(s, i), check);
    assert s.wires[i] + [] == s.wires[i];
    assert Edge(s, i);
    GotMeansNoSub(s, i);
  }

  lemma SilentRest(s: System, a: Action, check: bool, i: nat)
    requires Inv(s, check) && i < |s.nodes| && s.nodes[i].prop.repliedDs && Step(s, a, check).Next? && !ByProp(a)
    ensures Silent(s, Step(s, a, check).s, i)
  {
    hide Edge, NodeOK, Peers, OnAppTerminate, OnPropTerminate, OnTerminateAck, OnMyUpdates;
  }

  // A propagator that has acknowledged its downstream's termination puts nothing more on that wire, ever.
  lemma SilentAfterAck(s: System, a: Action, check: bool, i: nat)
    requires Inv(s, check) && i < |s.nodes| && s.nodes[i].prop.repliedDs && Step(s, a, check).Next?
    ensures var t := Step(s, a, check).s;
            t.nodes[i].prop.repliedDs && (t.wires[i] == s.wires[i] || (s.wires[i] != [] && t.wires[i] == s.wires[i][1..]))
  {
    hide Inv, Step;
    if ByProp(a) {
      SilentProp(s, a, check, i);
    } else {
      SilentRest(s, a, check, i);
    }
  }

  lemma GotMeansNoSub(s: System, i: nat)
    requires WellFormed(s) && i < |s.nodes| && Edge(s, i) && (s.nodes[i].prop.gotDs || s.nodes[i].tail)
    ensures s.subs[i] == 0
  {}

  // Each side acknowledges at most once.
  lemma AcksAtMostOnce(next: seq<nat>, actions: seq<Action>, check: bool, i: nat)
    requires forall k | 0 <= k < |next| :: next[k] <= |next|
    requires i < |next| && Run(Start(next), actions, check).Next?
    ensures Run(Start(next), actions, check).s.nodes[i].acksSent <= 1
    ensures Run(Start(next), actions, check).s.nodes[i].recvAcksSent <= 1
  {
    StartKeeps(next, check);
    RunKeeps(Start(next), actions, check);
    var s := Run(Start(next), actions, check).s;
    assert NodeOK(s.nodes[i], Peers(s, i), check);
  }

  ghost predicate PropDrained(s: System, i: nat)
    requires WellFormed(s) && i < |s.nodes|
  {
    var n := s.nodes[i];
    n.appToProp == [] && n.toProp == [] && n.ownAcks == 0 && s.subs[i] == 0 && n.prop.timerOff
  }

  ghost predicate RecvDrained(s: System, i: nat)
    requires WellFormed(s) && i < |s.nodes|
  {
    var n := s.nodes[i];
    n.appToRecv == 0 && n.toRecv == [] && forall j: nat | j < |s.nodes| && s.next[j] == i :: s.wires[j] == []
  }

  // A thread that has terminated leaves no message unread.
  lemma TerminatedDrained(s: System, check: bool, i: nat)
    requires Inv(s, check) && i < |s.nodes|
    ensures s.nodes[i].prop.phase == PTerm ==> PropDrained(s, i)
    ensures s.nodes[i].recv.phase == RTerm ==> RecvDrained(s, i)
  {
    assert NodeOK(s.nodes[i], Peers(s, i), check) && Edge(s, i);
    if s.nodes[i].recv.phase == RTerm {
      forall j: nat | j < |s.nodes| && s.next[j] == i ensures s.wires[j] == [] {
        assert j in Peers(s, i) && Edge(s, j);
      }
    }
  }

  // No step takes a thread back: not from its terminal state, nor a receiver into running, nor a flag or a signal away.
  ghost predicate Onward(n: Node, m: Node) {
    && (n.prop.phase == PTerm ==> m.prop.phase == PTerm) && (n.recv.phase == RTerm ==> m.recv.phase == RTerm)
    && (n.recv.phase != RRun ==> m.recv.phase != RRun) && (n.recv.gotProp ==> m.recv.gotProp) && n.app <= m.app
  }

  lemma PropOnward(s: System, a: Action, check: bool, i: nat)
    requires WellFormed(s) && i < |s.nodes| && Step(s, a, check).Next? && ByProp(a)
    ensures Onward(s.nodes[i], Step(s, a, check).s.nodes[i])
  {}

  lemma RestOnward(s: System, a: Action, check: bool, i: nat)
    requires WellFormed(s) && i < |s.nodes| && Step(s, a, check).Next? && !ByProp(a)
    ensures Onward(s.nodes[i], Step(s, a, check).s.nodes[i])
  {
    hide Peers;
  }

  lemma StepOnward(s: System, a: Action, check: bool, i: nat)
    requires WellFormed(s) && i < |s.nodes| && Step(s, a, check).Next?
    ensures Onward(s.nodes[i], Step(s, a, check).s.nodes[i])
  {
    hide Step, Onward;
    if ByProp(a) {
      PropOnward(s, a, check, i);
    } else {
      RestOnward(s, a, check, i);
    }
  }

  // Once a thread has terminated, its input channels are empty and stay empty, whatever the others do.
  lemma {:induction false} DrainedForever(s: System, actions: seq<Action>, check: bool, i: nat)
    requires Inv(s, check) && i < |s.nodes| && Run(s, actions, check).Next?
    ensures var t := Run(s, actions, check).s;
            && (s.nodes[i].prop.phase == PTerm ==> t.nodes[i].prop.phase == PTerm && PropDrained(t, i))
            && (s.nodes[i].recv.phase == RTerm ==> t.nodes[i].recv.phase == RTerm && RecvDrained(t, i))
    decreases |actions|
  {
    hide NodeOK, Edge, Step, PropDrained, RecvDrained;
    if actions == [] {
      TerminatedDrained(s, check, i);
    } else {
      StepKeeps(s, actions[0], check);
      StepOnward(s, actions[0], check, i);
      DrainedForever(Step(s, actions[0], check).s, actions[1..], check, i);
    }
  }

  // A propagator waiting for its receiver is always answered: the receiver cannot have exited, and the batch or its
  // acknowledgement is on the way.
  lemma WaitIsAnswered(s: System, check: bool, i: nat)
    requires Inv(s, check) && i < |s.nodes| && s.nodes[i].prop.waiting.Some?
    ensures s.nodes[i].recv.phase != RTerm
    ensures Step(s, OwnAck(i), check).Next? || (Step(s, FromPropagator(i), check).Next?
            && Step(Step(s, FromPropagator(i), check).s, OwnAck(i), check).Next?)
  {
    var n := s.nodes[i];
    assert NodeOK(n, Peers(s, i), check);
    if n.ownAcks == 0 {
      assert n.toRecv[0] in n.toRecv;
    }
  }

  // ---- the measure ----

  function AppLoad(q: seq<ToProp>): nat {
    if q == [] then 0 else (if q[0].Log? then 5 * q[0].load + 1 else 5) + AppLoad(q[1..])
  }

  function LateLoad(late: seq<nat>): nat {
    if late == [] then 0 else 5 * late[0] + 1 + LateLoad(late[1..])
  }

  function ForwardLoad(q: seq<FromRecv>): nat {
    if q == [] then 0 else (if q[0].Forwarded? then 5 * q[0].load + 1 else 1) + ForwardLoad(q[1..])
  }

  function RecvLoad(q: seq<ToRecv>): nat {
    if q == [] then 0 else (if q[0].MyUpdates? then 2 else 3) + RecvLoad(q[1..])
  }

  function WireLoad(w: seq<OnWire>): int {
    if w == [] then 0 else (if w[0].UpdateBuffer? then 5 * w[0].load - 3 else 1) + WireLoad(w[1..])
  }

  function Work(n: Node, size: nat): int {
    (if n.app == 0 then 2 * size + 10 else if n.app == 1 then 2 * size + 4 else 0)
    + n.appToRecv * (2 * size + 3) + AppLoad(n.appToProp) + LateLoad(n.late) + ForwardLoad(n.toProp) + RecvLoad(n.toRecv) + n.ownAcks
    + 5 * n.prop.load + (if n.prop.waiting.Some? then 5 * n.prop.waiting.value - 3 else 0) + (if n.prop.timerOff then 0 else 1)
  }

  function Works(nodes: seq<Node>, size: nat): int {
    if nodes == [] then 0 else Work(nodes[0], size) + Works(nodes[1..], size)
  }

  function WireLoads(wires: seq<seq<OnWire>>): int {
    if wires == [] then 0 else WireLoad(wires[0]) + WireLoads(wires[1..])
  }

  function Subs(subs: seq<nat>): nat {
    if subs == [] then 0 else subs[0] + Subs(subs[1..])
  }

  function Measure(s: System): int {
    Works(s.nodes, |s.nodes|) + WireLoads(s.wires) + 2 * Subs(s.subs)
  }

  lemma {:induction false} WorksUpdate(nodes: seq<Node>, size: nat, i: nat, n: Node)
    requires i < |nodes|
    ensures Works(nodes[i := n], size) == Works(nodes, size) + Work(n, size) - Work(nodes[i], size)
    decreases |nodes|
  {
    hide Work;
    if i > 0 {
      WorksUpdate(nodes[1..], size, i - 1, n);
      assert nodes[i := n][1..] == nodes[1..][i - 1 := n];
    } else {
      assert nodes[0 := n][1..] == nodes[1..];
    }
  }

  lemma {:induction false} WireLoadsUpdate(wires: seq<seq<OnWire>>, i: nat, w: seq<OnWire>)
    requires i < |wires|
    ensures WireLoads(wires[i := w]) == WireLoads(wires) + WireLoad(w) - WireLoad(wires[i])
    decreases |wires|
  {
    hide WireLoad;
    if i > 0 {
      WireLoadsUpdate(wires[1..], i - 1, w);
      assert wires[i := w][1..] == wires[1..][i - 1 := w];
    } else {
      assert wires[0 := w][1..] == wires[1..];
    }
  }

  lemma {:induction false} SubsUpdate(subs: seq<nat>, i: nat, x: nat)
    requires i < |subs|
    ensures Subs(subs[i := x]) == Subs(subs) + x - subs[i]
    decreases |subs|
  {
    if i > 0 {
      SubsUpdate(subs[1..], i - 1, x);
      assert subs[i := x][1..] == subs[1..][i - 1 := x];
    } else {
      assert subs[0 := x][1..] == subs[1..];
    }
  }

  lemma {:induction false} SubsPublish(subs: seq<nat>, more: seq<nat>)
    requires |subs| == |more| && forall j | 0 <= j < |subs| :: more[j] <= subs[j] + 1
    ensures Subs(more) <= Subs(subs) + |subs|
    decreases |subs|
  {
    if subs != [] {
      SubsPublish(subs[1..], more[1..]);
    }
  }

  lemma {:induction false} AppLoadAppend(q: seq<ToProp>, m: ToProp)
    ensures AppLoad(q + [m]) == AppLoad(q) + if m.Log? then 5 * m.load + 1 else 5
    decreases |q|
  {
    if q == [] {
      assert (q + [m])[1..] == [];
    } else {
      AppLoadAppend(q[1..], m);
      assert (q + [m])[1..] == q[1..] + [m];
    }
  }

  lemma {:induction false} LateLoadRemove(late: seq<nat>, at: nat)
    requires at < |late|
    ensures LateLoad(late[..at] + late[at + 1..]) + 5 * late[at] + 1 == LateLoad(late)
    decreases |late|
  {
    if at == 0 {
      assert late[..0] + late[1..] == late[1..];
    } else {
      LateLoadRemove(late[1..], at - 1);
      assert (late[..at] + late[at + 1..])[1..] == late[1..][..at - 1] + late[1..][at..];
    }
  }

  lemma {:induction false} ForwardLoadAppend(q: seq<FromRecv>, m: FromRecv)
    ensures ForwardLoad(q + [m]) == ForwardLoad(q) + if m.Forwarded? then 5 * m.load + 1 else 1
    decreases |q|
  {
    if q == [] {
      assert (q + [m])[1..] == [];
    } else {
      ForwardLoadAppend(q[1..], m);
      assert (q + [m])[1..] == q[1..] + [m];
    }
  }

  lemma {:induction false} RecvLoadAppend(q: seq<ToRecv>, m: ToRecv)
    ensures RecvLoad(q + [m]) == RecvLoad(q) + if m.MyUpdates? then 2 else 3
    decreases |q|
  {
    if q == [] {
      assert (q + [m])[1..] == [];
    } else {
      RecvLoadAppend(q[1..], m);
      assert (q + [m])[1..] == q[1..] + [m];
    }
  }

  lemma {:induction false} WireLoadAppend(w: seq<OnWire>, m: OnWire)
    ensures WireLoad(w + [m]) == WireLoad(w) + if m.UpdateBuffer? then 5 * m.load - 3 else 1
    decreases |w|
  {
    if w == [] {
      assert (w + [m])[1..] == [];
    } else {
      WireLoadAppend(w[1..], m);
      assert (w + [m])[1..] == w[1..] + [m];
    }
  }

  lemma {:induction false} WireLoadPositive(w: seq<OnWire>)
    requires forall m | m in w && m.UpdateBuffer? :: m.load > 0
    ensures WireLoad(w) >= 0
    decreases |w|
  {
    if w != [] {
      assert w[0] in w;
      WireLoadPositive(w[1..]);
    }
  }

  lemma {:induction false} SumsPositive(s: System, check: bool, k: nat)
    requires Inv(s, check) && k <= |s.nodes|
    ensures Works(s.nodes[k..], |s.nodes|) >= 0 && WireLoads(s.wires[k..]) >= 0
    decreases |s.nodes| - k
  {
    hide Work, WireLoad;
    if k < |s.nodes| {
      WorkPositive(s, check, k);
      assert s.nodes[k..][1..] == s.nodes[k + 1..] && s.wires[k..][1..] == s.wires[k + 1..];
      SumsPositive(s, check, k + 1);
    }
  }

  lemma WorkPositive(s: System, check: bool, k: nat)
    requires Inv(s, check) && k < |s.nodes|
    ensures Work(s.nodes[k], |s.nodes|) >= 0 && WireLoad(s.wires[k]) >= 0
  {
    hide AppOK, PairOK, AnswerOK, RecvOK, PropOK;
    assert NodeOK(s.nodes[k], Peers(s, k), check) && Edge(s, k);
    WireLoadPositive(s.wires[k]);
  }

  lemma MeasurePositive(s: System, check: bool)
    requires Inv(s, check)
    ensures Measure(s) >= 0
  {
    SumsPositive(s, check, 0);
    assert s.nodes[0..] == s.nodes && s.wires[0..] == s.wires;
  }

  // A step that changes node i, wire j and subscription k.
  lemma Falls(s: System, t: System, i: nat, j: nat, k: nat)
    requires WellFormed(s) && WellFormed(t) && t.next == s.next && i < |s.nodes| && j < |s.nodes| && k < |s.nodes|
    requires t.nodes == s.nodes[i := t.nodes[i]] && t.wires == s.wires[j := t.wires[j]] && t.subs == s.subs[k := t.subs[k]]
    requires Work(t.nodes[i], |s.nodes|) + WireLoad(t.wires[j]) + 2 * t.subs[k]
           < Work(s.nodes[i], |s.nodes|) + WireLoad(s.wires[j]) + 2 * s.subs[k]
    ensures Measure(t) < Measure(s)
  {
    hide Work, WireLoad;
    WorksUpdate(s.nodes, |s.nodes|, i, t.nodes[i]);
    WireLoadsUpdate(s.wires, j, t.wires[j]);
    SubsUpdate(s.subs, k, t.subs[k]);
  }

  lemma ProducerNodeFalls(n: Node, size: nat)
    ensures n.app == 0 ==> Work(n.(app := 1, appToProp := n.appToProp + [InternalTerminate]), size) < Work(n, size)
    ensures n.app == 1 ==> Work(n.(app := 2, appToRecv := n.appToRecv + 1), size) < Work(n, size)
    ensures n.toProp != [] && n.toProp[0].Forwarded? ==>
              Work(n.(toProp := n.toProp[1..], prop := OnForwarded(n.prop, n.toProp[0].load)), size) < Work(n, size)
    ensures n.toProp != [] && n.toProp[0].RecvTerminateAck? ==>
              Work(n.(toProp := n.toProp[1..], prop := OnRecvAck(n.prop)), size) < Work(n, size)
  {
    AppLoadAppend(n.appToProp, InternalTerminate);
    assert (n.appToRecv + 1) * (2 * size + 3) == n.appToRecv * (2 * size + 3) + 2 * size + 3;
  }

  lemma ProducerFalls(s: System, a: Action, check: bool)
    requires Inv(s, check) && At(a) < |s.nodes| && Step(s, a, check).Next? && (a.SignalProp? || a.SignalRecv? || a.FromReceiver?)
    ensures Measure(Step(s, a, check).s) < Measure(s)
  {
    hide NodeOK, Edge, Measure, Work, WireLoad, OnForwarded, OnRecvAck, Peers;
    var i := At(a);
    ProducerNodeFalls(s.nodes[i], |s.nodes|);
    Falls(s, Step(s, a, check).s, i, i, i);
  }

  lemma LogFalls(n: Node, size: nat)
    requires n.appToProp != [] && n.appToProp[0].Log?
    ensures Work(n.(appToProp := n.appToProp[1..], prop := OnLog(n.prop, n.appToProp[0].load)), size) < Work(n, size)
  {}

  lemma TerminateFalls(n: Node, size: nat, wire: seq<OnWire>)
    requires n.appToProp != [] && n.appToProp[0].InternalTerminate?
    ensures var out := OnInternalTerminate(n.prop);
            Work(n.(appToProp := n.appToProp[1..], prop := out.p, toRecv := n.toRecv + out.toRecv, acksSent := n.acksSent + Acks(out.wire)), size)
            + WireLoad(wire + out.wire) < Work(n, size) + WireLoad(wire)
  {
    RecvLoadAppend(n.toRecv, PropTerminate);
    WireLoadAppend(wire, TerminateAck);
    assert wire + [] == wire;
  }

  lemma FromAppFalls(s: System, i: nat, check: bool)
    requires Inv(s, check) && i < |s.nodes| && DoFromApp(s, i).Next?
    ensures Measure(DoFromApp(s, i).s) < Measure(s)
  {
    hide NodeOK, Edge, Measure, Work, WireLoad, OnLog, OnInternalTerminate, Peers, Acks;
    var n := s.nodes[i];
    if n.appToProp[0].Log? {
      LogFalls(n, |s.nodes|);
    } else {
      TerminateFalls(n, |s.nodes|, s.wires[i]);
    }
    Falls(s, DoFromApp(s, i).s, i, i, i);
  }

  lemma FromThreadFalls(s: System, i: nat, at: nat, check: bool)
    requires Inv(s, check) && i < |s.nodes| && DoFromThread(s, i, at).Next?
    ensures Measure(DoFromThread(s, i, at).s) < Measure(s)
  {
    hide Inv, Measure, Peers;
    LateLoadRemove(s.nodes[i].late, at);
    Falls(s, DoFromThread(s, i, at).s, i, i, i);
  }

  lemma Waits(n: Node, peers: set<nat>, check: bool)
    requires NodeOK(n, peers, check)
    ensures n.prop.waiting.Some? ==> n.prop.waiting.value > 0
    ensures n.prop.phase != PRun ==> n.prop.load == 0
  {}

  lemma TimerFalls(s: System, i: nat, check: bool)
    requires Inv(s, check) && i < |s.nodes| && DoTimer(s, i).Next?
    ensures Measure(DoTimer(s, i).s) < Measure(s)
  {
    hide NodeOK, Edge, Measure;
    var n := s.nodes[i];
    Waits(n, Peers(s, i), check);
    RecvLoadAppend(n.toRecv, MyUpdates);
    WireLoadAppend(s.wires[i], UpdateBuffer(n.prop.load));
    assert n.toRecv + [] == n.toRecv && s.wires[i] + [] == s.wires[i];
    Falls(s, DoTimer(s, i).s, i, i, i);
  }

  lemma OwnAckFalls(s: System, i: nat, check: bool)
    requires Inv(s, check) && i < |s.nodes| && DoOwnAck(s, i).Next?
    ensures Measure(DoOwnAck(s, i).s) < Measure(s)
  {
    hide NodeOK, Edge, Measure;
    var n := s.nodes[i];
    Waits(n, Peers(s, i), check);
    WireLoadAppend(s.wires[i], UpdateBuffer(n.prop.waiting.value));
    assert n.toRecv + [] == n.toRecv;
    Falls(s, DoOwnAck(s, i).s, i, i, i);
  }

  lemma FromDownstreamFalls(s: System, i: nat, check: bool)
    requires Inv(s, check) && i < |s.nodes| && DoFromDownstream(s, i).Next?
    ensures Measure(DoFromDownstream(s, i).s) < Measure(s)
  {
    hide NodeOK, Edge, Measure;
    var n := s.nodes[i];
    WireLoadAppend(s.wires[i], TerminateAck);
    assert n.toRecv + [] == n.toRecv && s.wires[i] + [] == s.wires[i];
    Falls(s, DoFromDownstream(s, i).s, i, i, i);
  }

  lemma FromPropagatorNodeFalls(n: Node, peers: set<nat>, size: nat, m: Node)
    requires n.toRecv != []
    requires n.toRecv[0].MyUpdates? ==> m == n.(toRecv := n.toRecv[1..], recv := OnMyUpdates(n.recv).r, ownAcks := n.ownAcks + 1)
    requires n.toRecv[0].PropTerminate? ==>
               OnPropTerminate(n.recv, peers).Some?
               && var out := OnPropTerminate(n.recv, peers).value;
                  m == n.(toRecv := n.toRecv[1..], recv := out.r, toProp := n.toProp + out.toProp, recvAcksSent := m.recvAcksSent)
    ensures Work(m, size) < Work(n, size)
  {
    ForwardLoadAppend(n.toProp, RecvTerminateAck);
    assert n.toProp + [] == n.toProp;
  }

  lemma FromPropagatorFalls(s: System, i: nat, check: bool)
    requires Inv(s, check) && i < |s.nodes| && DoFromPropagator(s, i).Next?
    ensures Measure(DoFromPropagator(s, i).s) < Measure(s)
  {
    hide NodeOK, Edge, Measure, Work, WireLoad, Peers;
    var n, t := s.nodes[i], DoFromPropagator(s, i).s;
    assert n.toProp + [] == n.toProp;
    FromPropagatorNodeFalls(n, Peers(s, i), |s.nodes|, t.nodes[i]);
    Falls(s, t, i, i, i);
  }

  lemma AppTerminateNodeFalls(n: Node, peers: set<nat>, check: bool, size: nat, m: Node)
    requires n.appToRecv > 0
    requires var out := OnAppTerminate(n.recv, peers, check);
             m == n.(appToRecv := n.appToRecv - 1, recv := out.r, toProp := n.toProp + out.toProp, recvAcksSent := m.recvAcksSent)
    ensures Work(m, size) + 2 * size < Work(n, size)
  {
    ForwardLoadAppend(n.toProp, RecvTerminateAck);
    assert n.toProp + [] == n.toProp;
    assert n.appToRecv * (2 * size + 3) == (n.appToRecv - 1) * (2 * size + 3) + 2 * size + 3;
  }

  lemma AppTerminateFalls(s: System, i: nat, check: bool)
    requires Inv(s, check) && i < |s.nodes| && DoAppTerminate(s, i, check).Next?
    ensures Measure(DoAppTerminate(s, i, check).s) < Measure(s)
  {
    hide NodeOK, Edge, Works, WireLoads, Subs, Peers, Work, OnAppTerminate, DoAppTerminate;
    var n, t := s.nodes[i], DoAppTerminate(s, i, check).s;
    AppTerminateFrame(s, i, check);
    AppTerminateNodeFalls(n, Peers(s, i), check, |s.nodes|, t.nodes[i]);
    WorksUpdate(s.nodes, |s.nodes|, i, t.nodes[i]);
    SubsPublish(s.subs, t.subs);
  }

  lemma AppTerminateFrame(s: System, i: nat, check: bool)
    requires WellFormed(s) && i < |s.nodes| && DoAppTerminate(s, i, check).Next?
    ensures var n, t, out := s.nodes[i], DoAppTerminate(s, i, check).s, OnAppTerminate(s.nodes[i].recv, Peers(s, i), check);
            && n.appToRecv > 0 && t.wires == s.wires && |t.subs| == |s.subs|
            && t.nodes == s.nodes[i := n.(appToRecv := n.appToRecv - 1, recv := out.r, toProp := n.toProp + out.toProp,
                                          recvAcksSent := t.nodes[i].recvAcksSent)]
            && forall j | 0 <= j < |s.subs| :: t.subs[j] <= s.subs[j] + 1
  {
    hide OnAppTerminate, Peers;
    AppAcksNothing(s.nodes[i].recv, Peers(s, i), check);
  }

  lemma AppAcksNothing(r: Recv, peers: set<nat>, check: bool)
    ensures !OnAppTerminate(r, peers, check).ackOwn
  {}

  // The step does not pass on as much load as it takes: true of every step except a delivery to a running receiver, and on
  // a ring of those too.
  ghost predicate Shrinks(s: System, a: Action)
    requires WellFormed(s)
  {
    a.FromWire? && a.j < |s.nodes| && s.next[a.j] < |s.nodes| && s.nodes[s.next[a.j]].recv.phase == RRun && s.wires[a.j] != [] ==>
      s.wires[a.j][0].UpdateBuffer? ==> a.left < s.wires[a.j][0].load
  }

  ghost predicate ShrinksAlong(s: System, actions: seq<Action>, check: bool)
    requires WellFormed(s)
    decreases |actions|
  {
    actions != [] ==>
      Shrinks(s, actions[0]) && (Step(s, actions[0], check).Next? ==> ShrinksAlong(Step(s, actions[0], check).s, actions[1..], check))
  }

  lemma FromWireFalls(s: System, j: nat, left: nat, check: bool)
    requires Inv(s, check) && j < |s.nodes| && DoFromWire(s, j, left).Next? && Shrinks(s, FromWire(j, left))
    ensures Measure(DoFromWire(s, j, left).s) < Measure(s)
  {
    hide NodeOK, Measure, Peers;
    var d := s.next[j];
    var n := s.nodes[d];
    assert Edge(s, j) && s.wires[j][0] in s.wires[j];
    ForwardLoadAppend(n.toProp, Forwarded(left));
    assert n.toProp + [] == n.toProp;
    Falls(s, DoFromWire(s, j, left).s, d, j, j);
  }

  predicate Increment(a: Action) {
    a.AppLog? || a.ThreadLog?
  }

  // Every step except a new increment brings the shutdown closer to its end.
  lemma StepFalls(s: System, a: Action, check: bool)
    requires Inv(s, check) && !Increment(a) && Step(s, a, check).Next? && Shrinks(s, a)
    ensures 0 <= Measure(Step(s, a, check).s) < Measure(s)
  {
    hide NodeOK, Edge, Measure, DoFromApp, DoFromThread, DoTimer, DoOwnAck, DoFromDownstream, DoFromPropagator, DoAppTerminate,
         DoFromWire, Shrinks;
    StepKeeps(s, a, check);
    MeasurePositive(Step(s, a, check).s, check);
    match a
    case FromApp(i) => FromAppFalls(s, i, check);
    case FromThread(i, at) => FromThreadFalls(s, i, at, check);
    case Timer(i) => TimerFalls(s, i, check);
    case OwnAck(i) => OwnAckFalls(s, i, check);
    case FromDownstream(i) => FromDownstreamFalls(s, i, check);
    case FromPropagator(i) => FromPropagatorFalls(s, i, check);
    case AppTerminate(i) => AppTerminateFalls(s, i, check);
    case FromWire(j, left) => FromWireFalls(s, j, left, check);
    case _ => ProducerFalls(s, a, check);
  }

  // So a run without new increments, along which deliveries shrink, is finite whatever the schedule.
  lemma {:induction false} RunsEnd(s: System, actions: seq<Action>, check: bool)
    requires Inv(s, check) && (forall a | a in actions :: !Increment(a)) && Run(s, actions, check).Next?
    requires ShrinksAlong(s, actions, check)
    ensures |actions| <= Measure(s)
    decreases |actions|
  {
    hide NodeOK, Edge, Step, Measure, Shrinks;
    if actions == [] {
      MeasurePositive(s, check);
    } else {
      StepKeeps(s, actions[0], check);
      StepFalls(s, actions[0], check);
      RunsEnd(Step(s, actions[0], check).s, actions[1..], check);
    }
  }

  // Every application has signalled, and every receiver has heard of it.
  ghost predicate Signalled(s: System) {
    forall i | 0 <= i < |s.nodes| :: s.nodes[i].app == 2 && s.nodes[i].recv.phase != RRun
  }

  lemma SignalledStays(s: System, a: Action, check: bool)
    requires Inv(s, check) && Signalled(s)
    ensures Shrinks(s, a) && (Increment(a) ==> Step(s, a, check).Disabled?)
    ensures Step(s, a, check).Next? ==> Signalled(Step(s, a, check).s)
  {
    SignalledDisables(s, a, check);
    hide Step, Edge, NodeOK;
    if Step(s, a, check).Next? {
      var t := Step(s, a, check).s;
      StepKeeps(s, a, check);
      forall i | 0 <= i < |t.nodes| ensures t.nodes[i].app == 2 && t.nodes[i].recv.phase != RRun {
        StepOnward(s, a, check, i);
        AtMostTwo(t.nodes[i], Peers(t, i), check);
      }
    }
  }

  lemma SignalledDisables(s: System, a: Action, check: bool)
    requires WellFormed(s) && Signalled(s)
    ensures Increment(a) ==> Step(s, a, check).Disabled?
  {}

  lemma AtMostTwo(n: Node, peers: set<nat>, check: bool)
    requires NodeOK(n, peers, check)
    ensures n.app <= 2
  {}

  // Once every receiver has been told to terminate nothing is forwarded any more, so on any topology, and with nothing
  // assumed of the traffic, every run is finite.
  lemma {:induction false} SignalledRunsEnd(s: System, actions: seq<Action>, check: bool)
    requires Inv(s, check) && Signalled(s) && Run(s, actions, check).Next?
    ensures |actions| <= Measure(s)
    decreases |actions|
  {
    hide NodeOK, Edge, Step, Measure, Shrinks, Signalled;
    if actions == [] {
      MeasurePositive(s, check);
    } else {
      StepKeeps(s, actions[0], check);
      SignalledStays(s, actions[0], check);
      StepFalls(s, actions[0], check);
      SignalledRunsEnd(Step(s, actions[0], check).s, actions[1..], check);
    }
  }

  // ---- where runs end ----

  ghost predicate Stuck(s: System, check: bool)
    requires WellFormed(s)
  {
    forall a: Action | !Increment(a) :: Step(s, a, check).Disabled?
  }

  lemma StuckDisables(s: System, check: bool, i: nat)
    requires WellFormed(s) && i < |s.nodes| && Stuck(s, check)
    ensures DoSignalProp(s, i).Disabled? && DoSignalRecv(s, i).Disabled? && DoFromApp(s, i).Disabled? && DoTimer(s, i).Disabled?
    ensures DoOwnAck(s, i).Disabled? && DoFromReceiver(s, i).Disabled? && DoFromDownstream(s, i).Disabled?
    ensures DoFromPropagator(s, i).Disabled? && DoAppTerminate(s, i, check).Disabled? && DoFromWire(s, i, 0).Disabled?
  {
    hide DoSignalProp, DoSignalRecv, DoFromApp, DoTimer, DoOwnAck, DoFromReceiver, DoFromDownstream, DoFromPropagator, DoAppTerminate, DoFromWire;
    assert Step(s, SignalProp(i), check).Disabled? && Step(s, SignalRecv(i), check).Disabled?;
    assert Step(s, FromApp(i), check).Disabled? && Step(s, Timer(i), check).Disabled? && Step(s, OwnAck(i), check).Disabled?;
    assert Step(s, FromReceiver(i), check).Disabled? && Step(s, FromDownstream(i), check).Disabled?;
    assert Step(s, FromPropagator(i), check).Disabled? && Step(s, AppTerminate(i), check).Disabled?;
    assert Step(s, FromWire(i, 0), check).Disabled?;
  }

  // No node is stuck before both of its threads have been told and its receiver has answered.
  lemma StuckNode(s: System, check: bool, i: nat)
    requires Inv(s, check) && i < |s.nodes| && Stuck(s, check)
    ensures var n := s.nodes[i];
            n.prop.waiting.None? && n.prop.phase != PRun && n.recv.phase != RRun && n.recv.repliedProp && n.toRecv == []
            && (n.prop.phase == PTermPrep ==> n.prop.timerOff && n.prop.recvOff && s.subs[i] == 0)
  {
    hide Edge, Stuck;
    StuckDisables(s, check, i);
    assert NodeOK(s.nodes[i], Peers(s, i), check);
  }

  lemma StuckEdge(s: System, check: bool, i: nat)
    requires Inv(s, check) && i < |s.nodes| && Stuck(s, check)
    ensures s.nodes[i].prop.phase == PTerm && (s.next[i] < |s.nodes| ==> i in s.nodes[s.next[i]].recv.acked)
  {
    hide NodeOK, Stuck;
    var d := s.next[i];
    StuckDisables(s, check, i);
    StuckNode(s, check, i);
    PrepMisses(s.nodes[i], Peers(s, i), check);
    assert Edge(s, i);
    if d == |s.nodes| {
      return;
    }
    StuckNode(s, check, d);
    assert Edge(s, i) && i in Peers(s, d);
    PrepMisses(s.nodes[i], Peers(s, i), check);
    if s.wires[i] != [] {
      assert s.wires[i][0] in s.wires[i];
    }
    TermHasAll(s.nodes[d], Peers(s, d), check);
  }

  lemma PrepMisses(n: Node, peers: set<nat>, check: bool)
    requires NodeOK(n, peers, check) && n.prop.phase != PRun
    ensures n.prop.repliedDs <==> n.tail || n.prop.gotDs
    ensures n.prop.phase == PTermPrep && n.prop.timerOff && n.prop.recvOff ==> !n.prop.repliedDs
    ensures n.prop.phase == PTerm ==> n.prop.repliedDs
  {}

  lemma TermHasAll(n: Node, peers: set<nat>, check: bool)
    requires NodeOK(n, peers, check)
    ensures n.recv.phase == RTerm ==> peers <= n.recv.acked
    ensures n.recv.phase == RTermSelf && n.recv.repliedProp && peers <= n.recv.acked ==> !check && peers == {} && n.recv.gotProp
    ensures n.recv.phase == RTerm && peers == {} && n.recv.gotProp ==> check
  {}

  // Every run that cannot go on has ended well: all propagators have terminated, and a receiver has terminated unless it
  // is the shipped one, expects no propagator, and saw its own propagator's message before the application's. Every
  // terminating thread has acknowledged exactly once.
  lemma ShutdownCompletes(s: System, check: bool, i: nat)
    requires Inv(s, check) && i < |s.nodes| && Stuck(s, check)
    ensures s.nodes[i].prop.phase == PTerm && s.nodes[i].recvAcksSent == 1
    ensures s.nodes[i].acksSent == if s.next[i] < |s.nodes| then 1 else 0
    ensures s.nodes[i].recv.phase == RTerm <==> (check || Peers(s, i) != {} || !s.nodes[i].recv.gotProp)
  {
    hide Edge, Stuck;
    StuckEdge(s, check, i);
    StuckNode(s, check, i);
    forall j | j in Peers(s, i) ensures j in s.nodes[i].recv.acked {
      StuckEdge(s, check, j);
    }
    assert NodeOK(s.nodes[i], Peers(s, i), check) && Edge(s, i);
    TailEdge(s, i);
  }

  lemma TailEdge(s: System, i: nat)
    requires WellFormed(s) && i < |s.nodes| && Edge(s, i)
    ensures s.nodes[i].tail <==> s.next[i] == |s.nodes|
  {}

  // A step towards every receiver having been told.
  lemma Signal(s: System, check: bool, i: nat) returns (a: Action)
    requires Inv(s, check) && i < |s.nodes| && (s.nodes[i].app != 2 || s.nodes[i].recv.phase == RRun)
    ensures !Increment(a) && Shrinks(s, a) && Step(s, a, check).Next?
  {
    hide Edge;
    assert NodeOK(s.nodes[i], Peers(s, i), check);
    a := if s.nodes[i].app == 0 then SignalProp(i) else if s.nodes[i].app == 1 then SignalRecv(i) else AppTerminate(i);
  }

  // From every reachable state some run, one along which deliveries shrink, completes the shutdown.
  lemma {:induction false} ShutdownReachable(s: System, check: bool) returns (actions: seq<Action>)
    requires Inv(s, check)
    ensures (forall a | a in actions :: !Increment(a)) && ShrinksAlong(s, actions, check)
    ensures Run(s, actions, check).Next? && Stuck(Run(s, actions, check).s, check)
    decreases if Inv(s, check) then Measure(s) else 0
  {
    hide NodeOK, Edge, Step, Measure, Shrinks;
    MeasurePositive(s, check);
    if Stuck(s, check) {
      actions := [];
      return;
    }
    var a: Action :| !Increment(a) && !Step(s, a, check).Disabled?;
    if i: nat :| i < |s.nodes| && (s.nodes[i].app != 2 || s.nodes[i].recv.phase == RRun) {
      a := Signal(s, check, i);
    } else {
      SignalledStays(s, a, check);
    }
    StepKeeps(s, a, check);
    StepFalls(s, a, check);
    var rest := ShutdownReachable(Step(s, a, check).s, check);
    actions := [a] + rest;
    assert actions[1..] == rest;
  }

  // ---- the missing exit check ----

  lemma SamePeers(s: System, t: System, i: nat)
    requires s.next == t.next
    ensures Peers(t, i) == Peers(s, i)
  {}

  // As shipped, a receiver that expects no propagator and has taken its own propagator's message while running never exits.
  lemma {:induction false} HangsForever(s: System, actions: seq<Action>, i: nat)
    requires Inv(s, false) && i < |s.nodes| && Peers(s, i) == {} && s.nodes[i].recv.gotProp && Run(s, actions, false).Next?
    ensures Run(s, actions, false).s.nodes[i].recv.phase != RTerm
    decreases |actions|
  {
    hide Edge, Step, Peers;
    if actions == [] {
      TermHasAll(s.nodes[i], Peers(s, i), false);
    } else {
      StepKeeps(s, actions[0], false);
      StepOnward(s, actions[0], false, i);
      assert Peers(Step(s, actions[0], false).s, i) == Peers(s, i) by { SamePeers(s, Step(s, actions[0], false).s, i); }
      HangsForever(Step(s, actions[0], false).s, actions[1..], i);
    }
  }

  // Three messages in one order are enough, in a chain of two: node 0 expects nobody, node 1 has no downstream.
  const CHAIN: seq<nat> := [1, 2]

  lemma ShippedHangs(actions: seq<Action>)
    ensures var early := [SignalProp(0), FromApp(0), FromPropagator(0)];
            WellFormed(Start(CHAIN)) && Run(Start(CHAIN), early, false).Next?
            && (Run(Run(Start(CHAIN), early, false).s, actions, false).Next? ==>
                  Run(Run(Start(CHAIN), early, false).s, actions, false).s.nodes[0].recv.phase != RTerm)
  {
    var s := Start(CHAIN);
    var early := [SignalProp(0), FromApp(0), FromPropagator(0)];
    StartKeeps(CHAIN, false);
    RunKeeps(s, early, false);
    EarlyRun();
    var t := Run(s, early, false).s;
    assert Peers(t, 0) == {};
    if Run(t, actions, false).Next? {
      HangsForever(t, actions, 0);
    }
  }

  lemma EarlyRun()
    ensures var early := [SignalProp(0), FromApp(0), FromPropagator(0)];
            WellFormed(Start(CHAIN)) && Run(Start(CHAIN), early, false).Next?
            && Run(Start(CHAIN), early, false).s.nodes[0].recv.gotProp
  {
    hide Run, Peers;
    var s := Start(CHAIN);
    var s1 := DoSignalProp(s, 0).s;
    assert s1.nodes[0].appToProp == [InternalTerminate];
    var s2 := DoFromApp(s1, 0).s;
    assert s2.nodes[0].toRecv == [PropTerminate];
    var s3 := DoFromPropagator(s2, 0).s;
    assert Step(s, SignalProp(0), false) == Next(s1) && Step(s1, FromApp(0), false) == Next(s2);
    assert Step(s2, FromPropagator(0), false) == Next(s3) && s3.nodes[0].recv.gotProp;
    ThreeSteps(s, s1, s2, s3, SignalProp(0), FromApp(0), FromPropagator(0), false);
  }

  lemma ThreeSteps(s: System, s1: System, s2: System, s3: System, a: Action, b: Action, c: Action, check: bool)
    requires WellFormed(s) && Step(s, a, check) == Next(s1) && WellFormed(s1) && Step(s1, b, check) == Next(s2)
    requires WellFormed(s2) && Step(s2, c, check) == Next(s3)
    ensures Run(s, [a, b, c], check) == Next(s3)
  {
    hide Step;
    assert [a, b, c][1..] == [b, c] && [b, c][1..] == [c] && [c][1..] == [];
    assert Run(s3, [], check) == Next(s3);
    assert Run(s2, [c], check) == Next(s3);
    assert Run(s1, [b, c], check) == Next(s3);
  }
}
