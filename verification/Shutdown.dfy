/** Shutting down: the receiver-driven termination protocol, over any topology in which a node has at most one downstream
    node. Update traffic is kept as its load; how much of it a running receiver passes on is left open. */
module TerminationSpec {
  import opened Messages

  datatype PropPhase = PRun | PTermPrep | PTerm
  datatype RecvPhase = RRun | RTermSelf | RTerm

  datatype ToProp = Log(load: nat) | InternalTerminate            // application -> propagator
  datatype FromRecv = Forwarded(load: nat) | RecvTerminateAck      // receiver -> propagator
  datatype ToRecv = MyUpdates | PropTerminate                      // propagator -> its own receiver
  datatype OnWire = UpdateBuffer(load: nat) | TerminateAck         // propagator -> downstream receiver

  datatype Prop = Prop(
    phase: PropPhase,
    load: nat,              // update_store
    ownDirty: bool,         // my_update_store is not empty
    waiting: Option<nat>,   // a buffer built, waiting for EMyUpdatesACK
    gotDs: bool,            // have_received_ds_term
    repliedDs: bool,        // have_replied_ds_term
    timerOff: bool,         // have_stopped_timer_thr
    recvOff: bool)          // have_stopped_recv_thr

  datatype Recv = Recv(
    phase: RecvPhase,
    batches: nat,           // my_updates
    gotProp: bool,          // have_received_prop_pair_term
    repliedProp: bool,      // have_replied_prop_pair_term
    acked: set<nat>)        // peers with has_replied_termination_

  const PROP: Prop := Prop(PRun, 0, false, None, false, false, false, false)
  const RECV: Recv := Recv(RRun, 0, false, false, {})

  // What a handler sends besides changing its thread's state.
  datatype PropOut = PropOut(p: Prop, wire: seq<OnWire>, toRecv: seq<ToRecv>)
  datatype RecvOut = RecvOut(r: Recv, toProp: seq<FromRecv>, ackOwn: bool, publish: bool)

  function Exit(p: Prop): Prop {
    if p.timerOff && p.recvOff && p.repliedDs then p.(phase := PTerm) else p
  }

  function OnLog(p: Prop, load: nat): Prop {
    if p.phase == PRun then p.(load := p.load + load, ownDirty := true) else p
  }

  function OnForwarded(p: Prop, load: nat): Prop {
    if p.phase == PRun then p.(load := p.load + load) else p
  }

  // A firing timer flushes whatever is in the store; while terminating it also stops the timer.
  function OnTimer(p: Prop): PropOut {
    var flushed :=
      if p.load == 0 then PropOut(p, [], [])
      else if p.ownDirty then PropOut(p.(load := 0, ownDirty := false, waiting := Some(p.load)), [], [MyUpdates])
      else PropOut(p.(load := 0), [UpdateBuffer(p.load)], []);
    if p.phase == PTermPrep then flushed.(p := Exit(flushed.p.(timerOff := true))) else flushed
  }

  function OnOwnAck(p: Prop): PropOut
    requires p.waiting.Some?
  {
    PropOut(p.(waiting := None), [UpdateBuffer(p.waiting.value)], [])
  }

  function OnInternalTerminate(p: Prop): PropOut {
    PropOut(p.(phase := PTermPrep, repliedDs := p.repliedDs || p.gotDs, load := 0),
            if p.gotDs then [TerminateAck] else [], [PropTerminate])
  }

  function OnRecvAck(p: Prop): Prop {
    Exit(p.(recvOff := true))
  }

  function OnDsTerminate(p: Prop): PropOut {
    if p.phase == PTermPrep then PropOut(Exit(p.(gotDs := true, repliedDs := true)), [TerminateAck], [])
    else PropOut(p.(gotDs := true), [], [])
  }

  function OnMyUpdates(r: Recv): RecvOut {
    RecvOut(if r.phase == RRun then r.(batches := r.batches + 1) else r, [], true, false)
  }

  // As shipped there is no exit check here; `check` adds it.
  function OnAppTerminate(r: Recv, peers: set<nat>, check: bool): RecvOut {
    var self := r.(phase := RTermSelf, batches := 0, repliedProp := r.repliedProp || r.gotProp);
    RecvOut(if check && self.repliedProp && peers <= self.acked then self.(phase := RTerm) else self,
            if r.gotProp then [RecvTerminateAck] else [], false, peers != {})
  }

  // A propagator's termination message in state TERM is fatal.
  function OnPropTerminate(r: Recv, peers: set<nat>): Option<RecvOut> {
    match r.phase
    case RRun => Some(RecvOut(r.(gotProp := true), [], false, false))
    case RTermSelf =>
      Some(RecvOut(r.(repliedProp := true, phase := if peers <= r.acked then RTerm else RTermSelf), [RecvTerminateAck], false, false))
    case RTerm => None
  }

  // `left` is the load that remains after this hop, and is passed on.
  function OnUpdateBuffer(r: Recv, left: nat): RecvOut {
    RecvOut(r, if r.phase == RRun && left > 0 then [Forwarded(left)] else [], false, false)
  }

  function OnTerminateAck(r: Recv, from: nat, peers: set<nat>): Recv {
    var s := r.(acked := r.acked + {from});
    if peers <= s.acked && s.repliedProp then s.(phase := RTerm) else s
  }
}

module Shutdown {
  import opened Messages
  import opened TerminationSpec

  // Application progress: 0 running, 1 propagator signalled, 2 receiver signalled too.
  datatype Node = Node(
    tail: bool,                // no downstream node: such a node neither logs nor forwards updates
    app: nat,
    appToProp: seq<ToProp>,    // from the thread that signals termination
    late: seq<nat>,            // increments from the other application threads, in any order
    appToRecv: nat,            // ERInternalTerminate messages
    prop: Prop,
    toRecv: seq<ToRecv>,
    ownAcks: nat,              // EMyUpdatesACK messages
    recv: Recv,
    toProp: seq<FromRecv>,
    acksSent: nat,             // history: EPRTerminateACK sent downstream
    recvAcksSent: nat)         // history: EPRecvInternalTerminateACK sent to the propagator

  datatype System = System(
    next: seq<nat>,            // each node's downstream node; the number of nodes stands for none
    nodes: seq<Node>,
    wires: seq<seq<OnWire>>,   // wires[i]: from node i's propagator to node next[i]'s receiver
    subs: seq<nat>)            // subs[i]: EPRTerminate messages on their way to node i's propagator

  datatype Action =
    | AppLog(i: nat, load: nat)
    | ThreadLog(i: nat, load: nat)
    | SignalProp(i: nat)
    | SignalRecv(i: nat)
    | FromApp(i: nat)
    | FromThread(i: nat, at: nat)
    | Timer(i: nat)
    | OwnAck(i: nat)
    | FromReceiver(i: nat)
    | FromDownstream(i: nat)
    | FromPropagator(i: nat)
    | AppTerminate(i: nat)
    | FromWire(j: nat, left: nat)

  datatype Outcome = Disabled | Fatal | Next(s: System)

  predicate WellFormed(s: System) {
    |s.nodes| == |s.next| == |s.wires| == |s.subs| && forall i | 0 <= i < |s.next| :: s.next[i] <= |s.next|
  }

  function Peers(s: System, i: nat): set<nat> {
    set j: nat | j < |s.next| && s.next[j] == i
  }

  // A propagator without downstream starts as if it had replied.
  function Start(next: seq<nat>): System {
    System(next,
           seq(|next|, i requires 0 <= i < |next| =>
             var tail := next[i] >= |next|;
             Node(tail, 0, [], [], 0, PROP.(repliedDs := tail), [], 0, RECV, [], 0, 0)),
           seq(|next|, i => []), seq(|next|, i => 0))
  }

  function With(s: System, i: nat, n: Node): System
    requires i < |s.nodes|
  {
    s.(nodes := s.nodes[i := n])
  }

  function Acks(out: seq<OnWire>): nat {
    if TerminateAck in out then 1 else 0
  }

  // A propagator handler's effect on node i.
  function ApplyProp(s: System, i: nat, n: Node, out: PropOut): System
    requires WellFormed(s) && i < |s.nodes|
  {
    With(s, i, n.(prop := out.p, toRecv := n.toRecv + out.toRecv, acksSent := n.acksSent + Acks(out.wire)))
    .(wires := s.wires[i := s.wires[i] + out.wire])
  }

  // A receiver handler's effect on node i.
  function ApplyRecv(s: System, i: nat, n: Node, out: RecvOut): System
    requires WellFormed(s) && i < |s.nodes|
  {
    With(s, i, n.(recv := out.r, toProp := n.toProp + out.toProp, ownAcks := n.ownAcks + if out.ackOwn then 1 else 0,
                  recvAcksSent := n.recvAcksSent + if RecvTerminateAck in out.toProp then 1 else 0))
    .(subs := if !out.publish then s.subs
              else seq(|s.subs|, j requires 0 <= j < |s.subs| => if j < |s.next| && s.next[j] == i then s.subs[j] + 1 else s.subs[j]))
  }

  function DoFromApp(s: System, i: nat): (r: Outcome)
    requires WellFormed(s) && i < |s.nodes|
    ensures r.Next? ==> WellFormed(r.s) && r.s.next == s.next
  {
    var n := s.nodes[i];
    if n.appToProp == [] || n.prop.waiting.Some? || n.prop.phase == PTerm then Disabled
    else
      var m := n.(appToProp := n.appToProp[1..]);
      match n.appToProp[0]
      case Log(load) => Next(With(s, i, m.(prop := OnLog(n.prop, load))))
      case InternalTerminate => Next(ApplyProp(s, i, m, OnInternalTerminate(n.prop)))
  }

  // An increment of another application thread arrives, possibly after the signal.
  function DoFromThread(s: System, i: nat, at: nat): (r: Outcome)
    requires WellFormed(s) && i < |s.nodes|
    ensures r.Next? ==> WellFormed(r.s) && r.s.next == s.next
  {
    var n := s.nodes[i];
    if at >= |n.late| || n.prop.waiting.Some? || n.prop.phase == PTerm then Disabled
    else Next(With(s, i, n.(late := n.late[..at] + n.late[at + 1..], prop := OnLog(n.prop, n.late[at]))))
  }

  // With nothing to flush and nothing to stop, a firing changes nothing and is no step.
  function DoTimer(s: System, i: nat): (r: Outcome)
    requires WellFormed(s) && i < |s.nodes|
    ensures r.Next? ==> WellFormed(r.s) && r.s.next == s.next
  {
    var n := s.nodes[i];
    if n.prop.waiting.Some? || n.prop.phase == PTerm || n.prop.timerOff || (n.prop.phase == PRun && n.prop.load == 0) then Disabled
    else Next(ApplyProp(s, i, n, OnTimer(n.prop)))
  }

  function DoOwnAck(s: System, i: nat): (r: Outcome)
    requires WellFormed(s) && i < |s.nodes|
    ensures r.Next? ==> WellFormed(r.s) && r.s.next == s.next
  {
    var n := s.nodes[i];
    if n.prop.waiting.None? || n.ownAcks == 0 then Disabled
    else Next(ApplyProp(s, i, n.(ownAcks := n.ownAcks - 1), OnOwnAck(n.prop)))
  }

  function DoFromReceiver(s: System, i: nat): (r: Outcome)
    requires WellFormed(s) && i < |s.nodes|
    ensures r.Next? ==> WellFormed(r.s) && r.s.next == s.next
  {
    var n := s.nodes[i];
    if n.toProp == [] || n.prop.waiting.Some? || n.prop.phase == PTerm then Disabled
    else
      var m := n.(toProp := n.toProp[1..]);
      match n.toProp[0]
      case Forwarded(load) => Next(With(s, i, m.(prop := OnForwarded(n.prop, load))))
      case RecvTerminateAck => Next(With(s, i, m.(prop := OnRecvAck(n.prop))))
  }

  function DoFromDownstream(s: System, i: nat): (r: Outcome)
    requires WellFormed(s) && i < |s.nodes|
    ensures r.Next? ==> WellFormed(r.s) && r.s.next == s.next
  {
    var n := s.nodes[i];
    if s.subs[i] == 0 || n.prop.waiting.Some? || n.prop.phase == PTerm then Disabled
    else Next(ApplyProp(s.(subs := s.subs[i := s.subs[i] - 1]), i, n, OnDsTerminate(n.prop)))
  }

  function DoFromPropagator(s: System, i: nat): (r: Outcome)
    requires WellFormed(s) && i < |s.nodes|
    ensures r.Next? ==> WellFormed(r.s) && r.s.next == s.next
  {
    var n := s.nodes[i];
    if n.toRecv == [] || n.recv.phase == RTerm then Disabled
    else
      var m := n.(toRecv := n.toRecv[1..]);
      match n.toRecv[0]
      case MyUpdates => Next(ApplyRecv(s, i, m, OnMyUpdates(n.recv)))
      case PropTerminate =>
        match OnPropTerminate(n.recv, Peers(s, i))
        case None => Outcome.Fatal
        case Some(out) => Next(ApplyRecv(s, i, m, out))
  }

  function DoAppTerminate(s: System, i: nat, check: bool): (r: Outcome)
    requires WellFormed(s) && i < |s.nodes|
    ensures r.Next? ==> WellFormed(r.s) && r.s.next == s.next
  {
    var n := s.nodes[i];
    if n.appToRecv == 0 || n.recv.phase == RTerm then Disabled
    else Next(ApplyRecv(s, i, n.(appToRecv := n.appToRecv - 1), OnAppTerminate(n.recv, Peers(s, i), check)))
  }

  // The receiver of node next[j] takes the next message from node j; running, it passes on a load of `left`.
  function DoFromWire(s: System, j: nat, left: nat): (r: Outcome)
    requires WellFormed(s) && j < |s.nodes|
    ensures r.Next? ==> WellFormed(r.s) && r.s.next == s.next
  {
    var d := s.next[j];
    if d >= |s.nodes| || s.wires[j] == [] || s.nodes[d].recv.phase == RTerm then Disabled
    else
      var n := s.nodes[d];
      var t := s.(wires := s.wires[j := s.wires[j][1..]]);
      match s.wires[j][0]
      case UpdateBuffer(load) => if n.tail && left > 0 then Disabled else Next(ApplyRecv(t, d, n, OnUpdateBuffer(n.recv, left)))
      case TerminateAck => if left > 0 then Disabled else Next(With(t, d, n.(recv := OnTerminateAck(n.recv, j, Peers(s, d)))))
  }

  // SignalTerm fails, and ShutDown aborts, unless the thread is running.
  function DoSignalProp(s: System, i: nat): (r: Outcome)
    requires WellFormed(s) && i < |s.nodes|
    ensures r.Next? ==> WellFormed(r.s) && r.s.next == s.next
  {
    var n := s.nodes[i];
    if n.app != 0 then Disabled
    else if n.prop.phase != PRun then Outcome.Fatal
    else Next(With(s, i, n.(app := 1, appToProp := n.appToProp + [InternalTerminate])))
  }

  function DoSignalRecv(s: System, i: nat): (r: Outcome)
    requires WellFormed(s) && i < |s.nodes|
    ensures r.Next? ==> WellFormed(r.s) && r.s.next == s.next
  {
    var n := s.nodes[i];
    if n.app != 1 then Disabled
    else if n.recv.phase != RRun then Outcome.Fatal
    else Next(With(s, i, n.(app := 2, appToRecv := n.appToRecv + 1)))
  }

  function DoAppLog(s: System, i: nat, load: nat): (r: Outcome)
    requires WellFormed(s) && i < |s.nodes|
    ensures r.Next? ==> WellFormed(r.s) && r.s.next == s.next
  {
    var n := s.nodes[i];
    if n.app != 0 || load == 0 || n.tail then Disabled else Next(With(s, i, n.(appToProp := n.appToProp + [Log(load)])))
  }

  function DoThreadLog(s: System, i: nat, load: nat): (r: Outcome)
    requires WellFormed(s) && i < |s.nodes|
    ensures r.Next? ==> WellFormed(r.s) && r.s.next == s.next
  {
    var n := s.nodes[i];
    if n.app != 0 || load == 0 || n.tail then Disabled else Next(With(s, i, n.(late := n.late + [load])))
  }

  function At(a: Action): nat {
    if a.FromWire? then a.j else a.i
  }

  function Step(s: System, a: Action, check: bool): (r: Outcome)
    requires WellFormed(s)
    ensures r.Next? ==> WellFormed(r.s) && r.s.next == s.next
  {
    if At(a) >= |s.nodes| then Disabled
    else match a
      case AppLog(i, load) => DoAppLog(s, i, load)
      case ThreadLog(i, load) => DoThreadLog(s, i, load)
      case SignalProp(i) => DoSignalProp(s, i)
      case SignalRecv(i) => DoSignalRecv(s, i)
      case FromApp(i) => DoFromApp(s, i)
      case FromThread(i, at) => DoFromThread(s, i, at)
      case Timer(i) => DoTimer(s, i)
      case OwnAck(i) => DoOwnAck(s, i)
      case FromReceiver(i) => DoFromReceiver(s, i)
      case FromDownstream(i) => DoFromDownstream(s, i)
      case FromPropagator(i) => DoFromPropagator(s, i)
      case AppTerminate(i) => DoAppTerminate(s, i, check)
      case FromWire(j, left) => DoFromWire(s, j, left)
  }

  function Run(s: System, actions: seq<Action>, check: bool): (r: Outcome)
    requires WellFormed(s)
    ensures r.Next? ==> WellFormed(r.s) && r.s.next == s.next
    decreases |actions|
  {
    if actions == [] then Next(s)
    else match Step(s, actions[0], check)
      case Next(t) => Run(t, actions[1..], check)
      case stop => stop
  }
}
