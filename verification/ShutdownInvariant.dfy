/** What every reachable state of the shutdown protocol satisfies. */
module ShutdownInvariant {
  import opened TerminationSpec
  import opened Shutdown

  predicate OnlyLogs(q: seq<ToProp>) {
    forall m | m in q :: m.Log?
  }

  predicate OnlyForwarded(q: seq<FromRecv>) {
    forall m | m in q :: m.Forwarded?
  }

  predicate OnlyBuffers(w: seq<OnWire>) {
    forall m | m in w :: m.UpdateBuffer?
  }

  // The termination message is there, once, and last.
  predicate LogsThenTerminate(q: seq<ToProp>) {
    q != [] && OnlyLogs(q[..|q| - 1]) && q[|q| - 1] == InternalTerminate
  }

  predicate ForwardedThenAck(q: seq<FromRecv>) {
    q != [] && OnlyForwarded(q[..|q| - 1]) && q[|q| - 1] == RecvTerminateAck
  }

  predicate BuffersThenAck(w: seq<OnWire>) {
    w != [] && OnlyBuffers(w[..|w| - 1]) && w[|w| - 1] == TerminateAck
  }

  ghost predicate AppOK(n: Node) {
    && n.app <= 2
    && (n.app == 0 ==> OnlyLogs(n.appToProp) && n.prop.phase == PRun)
    && (n.app > 0 && n.prop.phase == PRun ==> LogsThenTerminate(n.appToProp))
    && (n.prop.phase != PRun ==> n.app > 0 && n.appToProp == [])
    && (n.app < 2 ==> n.appToRecv == 0 && n.recv.phase == RRun)
    && (n.app == 2 ==> n.appToRecv == if n.recv.phase == RRun then 1 else 0)
  }

  // The propagator waits only while running, and its answer is on its way.
  ghost predicate WaitOK(n: Node) {
    && (n.prop.waiting.Some? ==> n.prop.phase == PRun && n.prop.waiting.value > 0 && |n.toRecv| + n.ownAcks == 1
                                 && forall m | m in n.toRecv :: m.MyUpdates?)
    && (n.prop.waiting.None? ==> n.ownAcks == 0 && (n.prop.phase == PRun ==> n.toRecv == []))
    && (n.prop.phase != PRun ==> n.prop.load == 0)
  }

  // Where the propagator's termination message to its receiver is.
  ghost predicate PairOK(n: Node) {
    && (n.prop.phase == PRun ==> !n.recv.gotProp && !n.recv.repliedProp && !n.prop.recvOff && !n.prop.timerOff)
    && (n.prop.phase != PRun ==>
          || (n.toRecv == [PropTerminate] && !n.recv.gotProp && !n.recv.repliedProp && n.recv.phase != RTerm)
          || (n.toRecv == [] && n.recv.phase == RRun && n.recv.gotProp && !n.recv.repliedProp)
          || (n.toRecv == [] && n.recv.phase != RRun && n.recv.repliedProp))
  }

  // Where the receiver's answer is.
  ghost predicate AnswerOK(n: Node) {
    && (!n.recv.repliedProp ==> OnlyForwarded(n.toProp) && !n.prop.recvOff && n.recvAcksSent == 0)
    && (n.recv.repliedProp ==> n.recvAcksSent == 1 && if n.prop.recvOff then n.toProp == [] else ForwardedThenAck(n.toProp))
  }

  ghost predicate RecvOK(n: Node, peers: set<nat>, check: bool) {
    && n.recv.acked <= peers
    && (n.recv.phase == RRun ==> n.recv.acked == {} && !n.recv.repliedProp)
    && (n.recv.phase == RTerm ==> n.recv.repliedProp && peers <= n.recv.acked)
    && (n.recv.phase == RTermSelf && n.recv.repliedProp && peers <= n.recv.acked ==> !check && peers == {} && n.recv.gotProp)
    && (n.recv.phase == RTerm && peers == {} && n.recv.gotProp ==> check)
  }

  ghost predicate PropOK(n: Node) {
    && (n.prop.phase == PTerm ==> n.prop.timerOff && n.prop.recvOff && n.prop.repliedDs)
    && (n.prop.phase == PTermPrep ==> !(n.prop.timerOff && n.prop.recvOff && n.prop.repliedDs))
    && (n.prop.repliedDs <==> n.tail || (n.prop.gotDs && n.prop.phase != PRun))
    && n.acksSent == if n.prop.repliedDs && !n.tail then 1 else 0
  }

  // A node without downstream has no updates to send and hears from nobody downstream.
  ghost predicate TailOK(n: Node) {
    && (forall load | load in n.late :: load > 0)
    && (n.tail ==>
          && !n.prop.gotDs && n.prop.load == 0 && !n.prop.ownDirty && n.prop.waiting.None? && n.late == []
          && (forall m | m in n.appToProp :: !m.Log?) && (forall m | m in n.toProp :: !m.Forwarded?))
  }

  ghost predicate NodeOK(n: Node, peers: set<nat>, check: bool) {
    AppOK(n) && WaitOK(n) && PairOK(n) && AnswerOK(n) && RecvOK(n, peers, check) && PropOK(n) && TailOK(n)
  }

  // The channels between propagator i and the receiver downstream of it.
  ghost predicate EdgeOK(i: nat, p: Prop, r: Recv, wire: seq<OnWire>, sub: nat) {
    && (r.phase == RRun ==> sub == 0 && !p.gotDs)
    && (r.phase != RRun ==> sub == if p.gotDs then 0 else 1)
    && (p.repliedDs ==> if i in r.acked then wire == [] else BuffersThenAck(wire))
    && (!p.repliedDs ==> i !in r.acked && OnlyBuffers(wire))
    && (forall m | m in wire && m.UpdateBuffer? :: m.load > 0)
  }

  ghost predicate Edge(s: System, i: nat)
    requires WellFormed(s) && i < |s.nodes|
  {
    if s.next[i] < |s.nodes| then !s.nodes[i].tail && EdgeOK(i, s.nodes[i].prop, s.nodes[s.next[i]].recv, s.wires[i], s.subs[i])
    else s.nodes[i].tail && s.wires[i] == [] && s.subs[i] == 0
  }

  ghost predicate Inv(s: System, check: bool) {
    && WellFormed(s)
    && (forall i: nat | i < |s.nodes| :: NodeOK(s.nodes[i], Peers(s, i), check))
    && (forall i: nat | i < |s.nodes| :: Edge(s, i))
  }

  // ---- putting the pieces back ----

  // A step inside node i that leaves its edges as they were.
  lemma Inside(s: System, t: System, i: nat, check: bool)
    requires Inv(s, check) && i < |s.nodes| && |t.nodes| == |s.nodes| && t == With(s, i, t.nodes[i])
    requires NodeOK(t.nodes[i], Peers(s, i), check) && t.nodes[i].tail == s.nodes[i].tail
    requires t.nodes[i].prop.gotDs == s.nodes[i].prop.gotDs && t.nodes[i].prop.repliedDs == s.nodes[i].prop.repliedDs
    requires t.nodes[i].recv.phase == s.nodes[i].recv.phase && t.nodes[i].recv.acked == s.nodes[i].recv.acked
    ensures Inv(t, check)
  {
    hide NodeOK;
    assert forall j: nat :: Peers(t, j) == Peers(s, j);
    forall j: nat | j < |t.nodes| ensures Edge(t, j) {
      assert Edge(s, j);
    }
  }

  // A step of node i's propagator, which may also use its wire and its subscription.
  lemma Downward(s: System, t: System, i: nat, check: bool)
    requires Inv(s, check) && WellFormed(t) && i < |s.nodes| && t.next == s.next && t.nodes == s.nodes[i := t.nodes[i]]
    requires t.wires == s.wires[i := t.wires[i]] && t.subs == s.subs[i := t.subs[i]]
    requires NodeOK(t.nodes[i], Peers(s, i), check) && t.nodes[i].recv == s.nodes[i].recv && Edge(t, i)
    ensures Inv(t, check)
  {
    hide NodeOK;
    assert forall j: nat :: Peers(t, j) == Peers(s, j);
    forall j: nat | j < |t.nodes| ensures Edge(t, j) {
      assert Edge(s, j);
    }
  }

  // A step of node d's receiver on the wire from node j.
  lemma Upward(s: System, t: System, j: nat, check: bool)
    requires Inv(s, check) && WellFormed(t) && j < |s.nodes| && t.next == s.next
    requires s.next[j] < |s.nodes|
    requires var d := s.next[j]; t.nodes[d].tail == s.nodes[d].tail && t.nodes == s.nodes[d := t.nodes[d]] && t.nodes[d].prop == s.nodes[d].prop
                                 && NodeOK(t.nodes[d], Peers(s, d), check)
                                 && (t.nodes[d].recv.phase == RRun <==> s.nodes[d].recv.phase == RRun)
                                 && forall k | k != j :: k in t.nodes[d].recv.acked <==> k in s.nodes[d].recv.acked
    requires t.wires == s.wires[j := t.wires[j]] && t.subs == s.subs && Edge(t, j)
    ensures Inv(t, check)
  {
    hide NodeOK;
    assert forall k: nat :: Peers(t, k) == Peers(s, k);
    forall k: nat | k < |t.nodes| ensures Edge(t, k) {
      assert Edge(s, k);
    }
  }

  // ---- every step keeps the invariant and none is fatal ----

  lemma TailLogs(q: seq<ToProp>)
    requires q != []
    ensures OnlyLogs(q) ==> OnlyLogs(q[1..]) && q[0].Log?
    ensures LogsThenTerminate(q) && q[0].Log? ==> LogsThenTerminate(q[1..])
    ensures LogsThenTerminate(q) && q[0].InternalTerminate? ==> q[1..] == []
  {
    assert forall m | m in q[1..] :: m in q;
    if LogsThenTerminate(q) && |q| > 1 {
      assert q[0] in q[..|q| - 1];
      var init := q[..|q| - 1];
      assert q[1..][..|q| - 2] == init[1..];
      assert forall m | m in init[1..] :: m in init;
    }
  }

  lemma TailForwarded(q: seq<FromRecv>)
    requires q != []
    ensures OnlyForwarded(q) ==> OnlyForwarded(q[1..]) && q[0].Forwarded?
    ensures ForwardedThenAck(q) && q[0].Forwarded? ==> ForwardedThenAck(q[1..])
    ensures ForwardedThenAck(q) && q[0].RecvTerminateAck? ==> q[1..] == []
  {
    assert forall m | m in q[1..] :: m in q;
    if ForwardedThenAck(q) && |q| > 1 {
      assert q[0] in q[..|q| - 1];
      var init := q[..|q| - 1];
      assert q[1..][..|q| - 2] == init[1..];
      assert forall m | m in init[1..] :: m in init;
    }
  }

  lemma TailBuffers(w: seq<OnWire>)
    requires w != []
    ensures OnlyBuffers(w) ==> OnlyBuffers(w[1..]) && w[0].UpdateBuffer?
    ensures BuffersThenAck(w) && w[0].UpdateBuffer? ==> BuffersThenAck(w[1..])
    ensures BuffersThenAck(w) && w[0].TerminateAck? ==> w[1..] == []
    ensures forall m | m in w[1..] :: m in w
  {
    if BuffersThenAck(w) && |w| > 1 {
      assert w[0] in w[..|w| - 1];
      var init := w[..|w| - 1];
      assert w[1..][..|w| - 2] == init[1..];
      assert forall m | m in init[1..] :: m in init;
    }
  }

  lemma AppendTerminate(q: seq<ToProp>)
    requires OnlyLogs(q)
    ensures LogsThenTerminate(q + [InternalTerminate])
  {
    assert (q + [InternalTerminate])[..|q|] == q;
  }

  lemma AppendAck(q: seq<FromRecv>)
    requires OnlyForwarded(q)
    ensures ForwardedThenAck(q + [RecvTerminateAck])
  {
    assert (q + [RecvTerminateAck])[..|q|] == q;
  }

  lemma AppendWireAck(w: seq<OnWire>)
    requires OnlyBuffers(w)
    ensures BuffersThenAck(w + [TerminateAck])
  {
    assert (w + [TerminateAck])[..|w|] == w;
  }

  lemma SignalPropKeeps(s: System, i: nat, check: bool)
    requires Inv(s, check) && i < |s.nodes|
    ensures !DoSignalProp(s, i).Fatal?
    ensures DoSignalProp(s, i).Next? ==> Inv(DoSignalProp(s, i).s, check)
  {
    var n := s.nodes[i];
    assert NodeOK(n, Peers(s, i), check);
    if n.app == 0 {
      AppendTerminate(n.appToProp);
      Inside(s, DoSignalProp(s, i).s, i, check);
    }
  }

  lemma SignalRecvKeeps(s: System, i: nat, check: bool)
    requires Inv(s, check) && i < |s.nodes|
    ensures !DoSignalRecv(s, i).Fatal?
    ensures DoSignalRecv(s, i).Next? ==> Inv(DoSignalRecv(s, i).s, check)
  {
    assert NodeOK(s.nodes[i], Peers(s, i), check);
    if s.nodes[i].app == 1 {
      Inside(s, DoSignalRecv(s, i).s, i, check);
    }
  }

  lemma AppLogKeeps(s: System, i: nat, load: nat, check: bool)
    requires Inv(s, check) && i < |s.nodes|
    ensures DoAppLog(s, i, load).Next? ==> Inv(DoAppLog(s, i, load).s, check)
  {
    assert NodeOK(s.nodes[i], Peers(s, i), check);
    if DoAppLog(s, i, load).Next? {
      Inside(s, DoAppLog(s, i, load).s, i, check);
    }
  }

  lemma ThreadLogKeeps(s: System, i: nat, load: nat, check: bool)
    requires Inv(s, check) && i < |s.nodes|
    ensures DoThreadLog(s, i, load).Next? ==> Inv(DoThreadLog(s, i, load).s, check)
  {
    assert NodeOK(s.nodes[i], Peers(s, i), check);
    if DoThreadLog(s, i, load).Next? {
      Inside(s, DoThreadLog(s, i, load).s, i, check);
    }
  }

  lemma FromThreadNode(n: Node, peers: set<nat>, check: bool, at: nat, m: Node)
    requires NodeOK(n, peers, check) && at < |n.late| && n.prop.waiting.None? && n.prop.phase != PTerm
    requires m == n.(late := n.late[..at] + n.late[at + 1..], prop := OnLog(n.prop, n.late[at]))
    ensures NodeOK(m, peers, check)
  {
    forall load | load in m.late ensures load > 0 {
      assert load in n.late;
    }
  }

  lemma FromThreadKeeps(s: System, i: nat, at: nat, check: bool)
    requires Inv(s, check) && i < |s.nodes|
    ensures DoFromThread(s, i, at).Next? ==> Inv(DoFromThread(s, i, at).s, check)
  {
    hide NodeOK, Edge;
    if DoFromThread(s, i, at).Next? {
      FromThreadNode(s.nodes[i], Peers(s, i), check, at, DoFromThread(s, i, at).s.nodes[i]);
      Inside(s, DoFromThread(s, i, at).s, i, check);
    }
  }

  lemma FromAppNode(n: Node, peers: set<nat>, check: bool, m: Node)
    requires NodeOK(n, peers, check) && n.appToProp != [] && n.prop.waiting.None? && n.prop.phase == PRun
    requires match n.appToProp[0]
             case Log(load) => m == n.(appToProp := n.appToProp[1..], prop := OnLog(n.prop, load))
             case InternalTerminate =>
               m == n.(appToProp := n.appToProp[1..], prop := OnInternalTerminate(n.prop).p, toRecv := n.toRecv + [PropTerminate],
                       acksSent := n.acksSent + if n.prop.gotDs then 1 else 0)
    ensures NodeOK(m, peers, check)
  {
    TailLogs(n.appToProp);
  }

  // Leaving the running state acknowledges a downstream termination that has come already.
  lemma FromAppEdge(s: System, i: nat, check: bool)
    requires Inv(s, check) && i < |s.nodes| && DoFromApp(s, i).Next? && s.nodes[i].prop.phase == PRun
    requires s.nodes[i].prop.repliedDs ==> s.nodes[i].tail
    requires s.nodes[i].tail ==> !s.nodes[i].prop.gotDs
    ensures Edge(DoFromApp(s, i).s, i)
  {
    hide NodeOK;
    assert Edge(s, i);
    AppendWireAck(s.wires[i]);
    assert s.wires[i] + [] == s.wires[i];
  }

  lemma Running(n: Node, peers: set<nat>, check: bool)
    requires NodeOK(n, peers, check)
    ensures n.appToProp != [] ==> n.prop.phase == PRun
    ensures n.prop.phase == PRun ==> !n.recv.repliedProp && (n.prop.repliedDs ==> n.tail)
    ensures n.tail ==> !n.prop.gotDs
  {}

  lemma FromAppKeeps(s: System, i: nat, check: bool)
    requires Inv(s, check) && i < |s.nodes|
    ensures DoFromApp(s, i).Next? ==> Inv(DoFromApp(s, i).s, check)
  {
    hide NodeOK, Edge;
    if DoFromApp(s, i).Next? {
      var t := DoFromApp(s, i).s;
      Running(s.nodes[i], Peers(s, i), check);
      FromAppNode(s.nodes[i], Peers(s, i), check, t.nodes[i]);
      FromAppEdge(s, i, check);
      Downward(s, t, i, check);
    }
  }

  lemma TimerNode(n: Node, peers: set<nat>, check: bool, m: Node)
    requires NodeOK(n, peers, check) && n.prop.waiting.None? && n.prop.phase != PTerm && !n.prop.timerOff
    requires m == n.(prop := OnTimer(n.prop).p, toRecv := n.toRecv + OnTimer(n.prop).toRecv)
    ensures NodeOK(m, peers, check)
    ensures n.prop.repliedDs || n.tail ==> OnTimer(n.prop).wire == []
    ensures forall w | w in OnTimer(n.prop).wire :: w.UpdateBuffer? && w.load > 0
  {
    assert n.toRecv + [] == n.toRecv;
  }

  lemma TimerKeeps(s: System, i: nat, check: bool)
    requires Inv(s, check) && i < |s.nodes|
    ensures DoTimer(s, i).Next? ==> Inv(DoTimer(s, i).s, check)
  {
    hide NodeOK, EdgeOK;
    if DoTimer(s, i).Next? {
      var n, t := s.nodes[i], DoTimer(s, i).s;
      TimerNode(n, Peers(s, i), check, t.nodes[i]);
      assert Edge(s, i);
      if s.next[i] < |s.nodes| {
        BuffersOut(i, n.prop, t.nodes[i].prop, s.nodes[s.next[i]].recv, s.wires[i], s.subs[i], OnTimer(n.prop).wire);
      } else {
        assert s.wires[i] + [] == [];
      }
      Downward(s, t, i, check);
    }
  }

  // Sending buffers is allowed as long as no acknowledgement has been sent.
  lemma BuffersOut(i: nat, p: Prop, q: Prop, r: Recv, wire: seq<OnWire>, sub: nat, out: seq<OnWire>)
    requires EdgeOK(i, p, r, wire, sub) && q.gotDs == p.gotDs && q.repliedDs == p.repliedDs
    requires p.repliedDs ==> out == []
    requires forall w | w in out :: w.UpdateBuffer? && w.load > 0
    ensures forall c: Recv | c.phase == r.phase && c.acked == r.acked :: EdgeOK(i, q, c, wire + out, sub)
  {
    if out == [] {
      assert wire + out == wire;
    }
  }

  lemma OwnAckKeeps(s: System, i: nat, check: bool)
    requires Inv(s, check) && i < |s.nodes|
    ensures DoOwnAck(s, i).Next? ==> Inv(DoOwnAck(s, i).s, check)
  {
    assert NodeOK(s.nodes[i], Peers(s, i), check) && Edge(s, i);
    if DoOwnAck(s, i).Next? {
      Downward(s, DoOwnAck(s, i).s, i, check);
    }
  }

  lemma FromReceiverNode(n: Node, peers: set<nat>, check: bool, m: Node)
    requires NodeOK(n, peers, check) && n.toProp != [] && n.prop.waiting.None? && n.prop.phase != PTerm
    requires m == n.(toProp := n.toProp[1..], prop := match n.toProp[0]
                                                      case Forwarded(load) => OnForwarded(n.prop, load)
                                                      case RecvTerminateAck => OnRecvAck(n.prop))
    ensures NodeOK(m, peers, check)
  {
    TailForwarded(n.toProp);
  }

  lemma FromReceiverKeeps(s: System, i: nat, check: bool)
    requires Inv(s, check) && i < |s.nodes|
    ensures DoFromReceiver(s, i).Next? ==> Inv(DoFromReceiver(s, i).s, check)
  {
    hide NodeOK, Edge;
    if DoFromReceiver(s, i).Next? {
      FromReceiverNode(s.nodes[i], Peers(s, i), check, DoFromReceiver(s, i).s.nodes[i]);
      Inside(s, DoFromReceiver(s, i).s, i, check);
    }
  }

  lemma FromDownstreamNode(n: Node, peers: set<nat>, check: bool, m: Node)
    requires NodeOK(n, peers, check) && n.prop.waiting.None? && n.prop.phase != PTerm && !n.prop.gotDs && !n.tail
    requires m == n.(prop := OnDsTerminate(n.prop).p, acksSent := n.acksSent + if n.prop.phase == PTermPrep then 1 else 0)
    ensures NodeOK(m, peers, check)
  {}

  lemma FromDownstreamEdge(i: nat, p: Prop, r: Recv, wire: seq<OnWire>, sub: nat)
    requires EdgeOK(i, p, r, wire, sub) && sub > 0 && p.phase != PTerm && (p.repliedDs ==> p.gotDs)
    ensures !p.gotDs
    ensures forall c: Recv | c.phase == r.phase && c.acked == r.acked ::
              EdgeOK(i, OnDsTerminate(p).p, c, wire + OnDsTerminate(p).wire, sub - 1)
  {
    AppendWireAck(if OnlyBuffers(wire) then wire else []);
    assert wire + [] == wire;
  }

  lemma FromDownstreamKeeps(s: System, i: nat, check: bool)
    requires Inv(s, check) && i < |s.nodes|
    ensures DoFromDownstream(s, i).Next? ==> Inv(DoFromDownstream(s, i).s, check)
  {
    hide NodeOK, EdgeOK;
    if DoFromDownstream(s, i).Next? {
      var n, t := s.nodes[i], DoFromDownstream(s, i).s;
      assert Edge(s, i);
      RepliedMeansGot(n, Peers(s, i), check);
      FromDownstreamEdge(i, n.prop, s.nodes[s.next[i]].recv, s.wires[i], s.subs[i]);
      FromDownstreamNode(n, Peers(s, i), check, t.nodes[i]);
      Downward(s, t, i, check);
    }
  }

  lemma RepliedMeansGot(n: Node, peers: set<nat>, check: bool)
    requires NodeOK(n, peers, check)
    ensures n.prop.repliedDs && !n.tail ==> n.prop.gotDs
  {}

  lemma MyUpdatesKeeps(n: Node, peers: set<nat>, check: bool, m: Node)
    requires NodeOK(n, peers, check) && n.toRecv != [] && n.toRecv[0].MyUpdates? && n.recv.phase != RTerm
    requires m == n.(toRecv := n.toRecv[1..], recv := OnMyUpdates(n.recv).r, ownAcks := n.ownAcks + 1)
    ensures NodeOK(m, peers, check)
  {}

  // The fatal branch, a termination message to a terminated receiver, is never taken.
  lemma PropTerminateKeeps(n: Node, peers: set<nat>, check: bool, m: Node)
    requires NodeOK(n, peers, check) && n.toRecv != [] && n.toRecv[0].PropTerminate? && n.recv.phase != RTerm
    requires OnPropTerminate(n.recv, peers).Some?
    requires var out := OnPropTerminate(n.recv, peers).value;
             m == n.(toRecv := n.toRecv[1..], recv := out.r, toProp := n.toProp + out.toProp,
                     recvAcksSent := n.recvAcksSent + if RecvTerminateAck in out.toProp then 1 else 0)
    ensures NodeOK(m, peers, check)
  {
    assert n.toRecv[0] in n.toRecv;
    AppendAck(if OnlyForwarded(n.toProp) then n.toProp else []);
    assert n.toProp + [] == n.toProp;
  }

  lemma FromPropagatorKeeps(s: System, i: nat, check: bool)
    requires Inv(s, check) && i < |s.nodes|
    ensures !DoFromPropagator(s, i).Fatal?
    ensures DoFromPropagator(s, i).Next? ==> Inv(DoFromPropagator(s, i).s, check)
  {
    hide NodeOK, Edge;
    var n := s.nodes[i];
    if DoFromPropagator(s, i).Next? {
      var t := DoFromPropagator(s, i).s;
      if n.toRecv[0].MyUpdates? {
        assert n.toProp + [] == n.toProp;
        MyUpdatesKeeps(n, Peers(s, i), check, t.nodes[i]);
      } else {
        PropTerminateKeeps(n, Peers(s, i), check, t.nodes[i]);
      }
      Reached(s, t, i, check);
    }
  }

  // A step of node i's receiver that does not start its termination.
  lemma Reached(s: System, t: System, i: nat, check: bool)
    requires Inv(s, check) && i < |s.nodes| && |t.nodes| == |s.nodes| && t == With(s, i, t.nodes[i])
    requires NodeOK(t.nodes[i], Peers(s, i), check) && t.nodes[i].prop == s.nodes[i].prop && t.nodes[i].tail == s.nodes[i].tail
    requires (t.nodes[i].recv.phase == RRun <==> s.nodes[i].recv.phase == RRun) && t.nodes[i].recv.acked == s.nodes[i].recv.acked
    ensures Inv(t, check)
  {
    hide NodeOK;
    assert forall j: nat :: Peers(t, j) == Peers(s, j);
    forall j: nat | j < |t.nodes| ensures Edge(t, j) {
      assert Edge(s, j);
    }
  }

  // Starting the receiver's termination reaches every upstream propagator at once.
  lemma AppTerminateNode(n: Node, peers: set<nat>, check: bool, m: Node)
    requires NodeOK(n, peers, check) && n.appToRecv > 0 && n.recv.phase == RRun
    requires var out := OnAppTerminate(n.recv, peers, check);
             m == n.(appToRecv := n.appToRecv - 1, recv := out.r, toProp := n.toProp + out.toProp,
                     recvAcksSent := n.recvAcksSent + if RecvTerminateAck in out.toProp then 1 else 0)
    ensures NodeOK(m, peers, check)
  {
    AppendAck(if OnlyForwarded(n.toProp) then n.toProp else []);
    assert n.toProp + [] == n.toProp;
  }

  lemma Unsignalled(n: Node, peers: set<nat>, check: bool)
    requires NodeOK(n, peers, check) && n.appToRecv > 0
    ensures n.recv.phase == RRun
  {}

  lemma AppTerminateKeeps(s: System, i: nat, check: bool)
    requires Inv(s, check) && i < |s.nodes|
    ensures DoAppTerminate(s, i, check).Next? ==> Inv(DoAppTerminate(s, i, check).s, check)
  {
    hide NodeOK, Edge;
    if DoAppTerminate(s, i, check).Next? {
      var n, t := s.nodes[i], DoAppTerminate(s, i, check).s;
      Unsignalled(n, Peers(s, i), check);
      AppTerminateNode(n, Peers(s, i), check, t.nodes[i]);
      forall j: nat | j < |s.nodes| ensures t.subs[j] == s.subs[j] + if s.next[j] == i then 1 else 0 {
        assert s.next[j] == i <==> j in Peers(s, i);
      }
      Published(s, t, i, check);
    }
  }

  lemma Published(s: System, t: System, i: nat, check: bool)
    requires Inv(s, check) && WellFormed(t) && i < |s.nodes| && t.next == s.next && t.wires == s.wires
    requires t.nodes == s.nodes[i := t.nodes[i]] && t.nodes[i].prop == s.nodes[i].prop && NodeOK(t.nodes[i], Peers(s, i), check)
    requires t.nodes[i].tail == s.nodes[i].tail
    requires s.nodes[i].recv.phase == RRun && t.nodes[i].recv.phase != RRun && t.nodes[i].recv.acked == s.nodes[i].recv.acked
    requires forall j: nat | j < |s.nodes| :: t.subs[j] == s.subs[j] + if s.next[j] == i then 1 else 0
    ensures Inv(t, check)
  {
    hide NodeOK;
    assert forall j: nat :: Peers(t, j) == Peers(s, j);
    forall j: nat | j < |t.nodes| ensures Edge(t, j) {
      assert Edge(s, j);
    }
  }

  lemma BufferNode(n: Node, peers: set<nat>, check: bool, left: nat, m: Node)
    requires NodeOK(n, peers, check) && n.recv.phase != RTerm && (n.tail ==> left == 0)
    requires m == n.(toProp := n.toProp + OnUpdateBuffer(n.recv, left).toProp)
    ensures NodeOK(m, peers, check)
  {
    assert n.toProp + [] == n.toProp;
  }

  lemma BufferKeeps(s: System, j: nat, left: nat, check: bool)
    requires Inv(s, check) && j < |s.nodes| && DoFromWire(s, j, left).Next? && s.wires[j][0].UpdateBuffer?
    ensures Inv(DoFromWire(s, j, left).s, check)
  {
    hide NodeOK;
    var d, t := s.next[j], DoFromWire(s, j, left).s;
    assert Edge(s, j);
    BufferNode(s.nodes[d], Peers(s, d), check, left, t.nodes[d]);
    TailBuffers(s.wires[j]);
    Upward(s, t, j, check);
  }

  lemma WireAckNode(n: Node, peers: set<nat>, check: bool, j: nat)
    requires NodeOK(n, peers, check) && j in peers && j !in n.recv.acked && n.recv.phase == RTermSelf
    ensures NodeOK(n.(recv := OnTerminateAck(n.recv, j, peers)), peers, check)
  {}

  lemma WireAckKeeps(s: System, j: nat, check: bool)
    requires Inv(s, check) && j < |s.nodes| && DoFromWire(s, j, 0).Next? && s.wires[j][0].TerminateAck?
    ensures Inv(DoFromWire(s, j, 0).s, check)
  {
    hide NodeOK;
    var d, t := s.next[j], DoFromWire(s, j, 0).s;
    assert NodeOK(s.nodes[d], Peers(s, d), check) && Edge(s, j) && j in Peers(s, d);
    AckMeansReplied(s.nodes[j], s.wires[j], Peers(s, j), check, j, s.nodes[d].recv, s.subs[j]);
    TailBuffers(s.wires[j]);
    WireAckNode(s.nodes[d], Peers(s, d), check, j);
    Upward(s, t, j, check);
  }

  // An acknowledgement on the wire was sent by a propagator that had been told to stop.
  lemma AckMeansReplied(p: Node, wire: seq<OnWire>, peers: set<nat>, check: bool, j: nat, r: Recv, sub: nat)
    requires NodeOK(p, peers, check) && !p.tail && EdgeOK(j, p.prop, r, wire, sub) && wire != [] && wire[0].TerminateAck?
    ensures p.prop.repliedDs && p.prop.gotDs && j !in r.acked && r.phase != RRun
  {
    TailBuffers(wire);
  }

  lemma FromWireKeeps(s: System, j: nat, left: nat, check: bool)
    requires Inv(s, check) && j < |s.nodes|
    ensures DoFromWire(s, j, left).Next? ==> Inv(DoFromWire(s, j, left).s, check)
  {
    if DoFromWire(s, j, left).Next? {
      if s.wires[j][0].UpdateBuffer? {
        BufferKeeps(s, j, left, check);
      } else {
        WireAckKeeps(s, j, check);
      }
    }
  }
}
