/** N nodes in a ring: node i's propagator feeds the channel into node (i + 1) % N. Threads take turns; every channel
    is first in, first out. The logs, cuts and delivered counts are history: no guard reads them. */
module Ring {
  import opened Int32
  import opened Messages
  import P = PropagatorSpec
  import R = ReceiverSpec

  // An increment applied by an application thread and still on its way to the propagator.
  datatype Queued = Queued(thread: int, inc: Inc)

  datatype Node = Node(
    queued: seq<Queued>,      // application threads -> propagator, one FIFO per thread
    prop: P.State,
    toReceiver: seq<Buffer>,  // propagator -> receiver: own batches
    acks: nat,                // receiver -> propagator: acknowledgements of own batches
    recv: R.State,
    toProp: seq<Buffer>,      // receiver -> propagator: forwarded buffers
    delivered: seq<int>       // history: how many of each origin's increments have been handled here
  )

  datatype System = System(
    nodes: seq<Node>,
    wires: seq<seq<Buffer>>,  // wires[i] leads into node i
    logs: seq<seq<Inc>>,      // history: logs[o] is what origin o logged, by sequence number
    cuts: seq<set<int>>       // history: cuts[o] holds where origin o's log was cut into batches
  )

  datatype Action =
    | Inc(i: nat, thread: int, key: int, delta: Value)
    | Log(i: nat, at: nat)
    | Timer(i: nat)
    | Record(i: nat)
    | Send(i: nat)
    | Receive(i: nat)
    | Forward(i: nat)

  datatype Variant = Repaired | Shipped

  datatype Outcome = Disabled | Abort(check: Check) | Next(s: System)

  function Size(s: System): nat { |s.nodes| }

  function Succ(n: nat, i: nat): nat
    requires i < n
  {
    if i + 1 == n then 0 else i + 1
  }

  function Pred(n: nat, i: nat): nat
    requires i < n
  {
    if i == 0 then n - 1 else i - 1
  }

  predicate WellFormed(s: System) {
    Size(s) > 0 && |s.wires| == Size(s) && |s.logs| == Size(s) && |s.cuts| == Size(s)
  }

  const IDLE: Node := Node([], P.START, [], 0, R.State(map[], []), [], [])

  function Start(n: nat): System {
    System(seq(n, i => IDLE.(delivered := seq(n, o => 0))), seq(n, i => []), seq(n, i => []), seq(n, i => {}))
  }

  function WithNode(s: System, i: nat, n: Node): System
    requires i < Size(s)
  {
    s.(nodes := s.nodes[i := n])
  }

  // Table.Inc: apply locally, then queue for the propagator. The propagator's key is 32 bits wide.
  predicate FitsKey(key: int) {
    -0x8000_0000 <= key < 0x8000_0000
  }

  function DoInc(s: System, i: nat, thread: int, key: int, delta: Value): (r: Outcome)
    requires WellFormed(s) && i < Size(s)
    ensures r.Next? ==> WellFormed(r.s) && Size(r.s) == Size(s)
  {
    if !FitsKey(key) then Disabled
    else
      var n := s.nodes[i];
      Next(WithNode(s, i, n.(recv := n.recv.(table := AddAt(n.recv.table, key, delta)),
                             queued := n.queued + [Queued(thread, Messages.Inc(key, delta))])))
  }

  // The oldest increment of some thread reaches the propagator.
  function DoLog(s: System, i: nat, at: nat): (r: Outcome)
    requires WellFormed(s) && i < Size(s)
    ensures r.Next? ==> WellFormed(r.s) && Size(r.s) == Size(s)
  {
    var n := s.nodes[i];
    if at >= |n.queued| || n.prop.held.Some? || exists j :: 0 <= j < at && n.queued[j].thread == n.queued[at].thread then Disabled
    else
      var inc := n.queued[at].inc;
      Next(WithNode(s, i, n.(queued := n.queued[..at] + n.queued[at + 1..], prop := P.OnUpdateLog(n.prop, inc)))
           .(logs := s.logs[i := s.logs[i] + [inc]]))
  }

  // The timer fires with something to send; with an empty store it changes nothing and is no step.
  function DoTimer(s: System, i: nat): (r: Outcome)
    requires WellFormed(s) && i < Size(s)
    ensures r.Next? ==> WellFormed(r.s) && Size(r.s) == Size(s)
  {
    var n := s.nodes[i];
    if n.prop.held.Some? || n.prop.store == map[] then Disabled
    else match P.OnTimer(n.prop, i)
      case Fatal(c) => Abort(c)
      case Ok((q, Nothing)) => Disabled
      case Ok((q, SendNow(b))) =>
        Next(WithNode(s, i, n.(prop := q)).(wires := s.wires[Succ(Size(s), i) := s.wires[Succ(Size(s), i)] + [b]]))
      case Ok((q, RecordFirst(batch, b))) =>
        Next(WithNode(s, i, n.(prop := q, toReceiver := n.toReceiver + [batch]))
             .(cuts := s.cuts[i := s.cuts[i] + {n.prop.ownRange.end + 1}]))
  }

  // The receiver queues an own batch and acknowledges it.
  function DoRecord(s: System, i: nat): (r: Outcome)
    requires WellFormed(s) && i < Size(s)
    ensures r.Next? ==> WellFormed(r.s) && Size(r.s) == Size(s)
  {
    var n := s.nodes[i];
    if n.toReceiver == [] then Disabled
    else Next(WithNode(s, i, n.(recv := R.OnMyUpdates(n.recv, n.toReceiver[0]), toReceiver := n.toReceiver[1..], acks := n.acks + 1)))
  }

  // The acknowledgement arrives and the held buffer goes out.
  function DoSend(s: System, i: nat): (r: Outcome)
    requires WellFormed(s) && i < Size(s)
    ensures r.Next? ==> WellFormed(r.s) && Size(r.s) == Size(s)
  {
    var n := s.nodes[i];
    if n.prop.held.None? || n.acks == 0 then Disabled
    else Next(WithNode(s, i, n.(prop := n.prop.(held := None), acks := n.acks - 1))
              .(wires := s.wires[Succ(Size(s), i) := s.wires[Succ(Size(s), i)] + [n.prop.held.value]]))
  }

  function Delivered(delivered: seq<int>, b: Buffer): seq<int> {
    seq(|delivered|, o requires 0 <= o < |delivered| => if o in b.ranges then b.ranges[o].end + 1 else delivered[o])
  }

  function DoReceive(s: System, i: nat, v: Variant): (r: Outcome)
    requires WellFormed(s) && i < Size(s)
    ensures r.Next? ==> WellFormed(r.s) && Size(r.s) == Size(s)
  {
    var n := s.nodes[i];
    if s.wires[i] == [] then Disabled
    else
      var b := s.wires[i][0];
      match if v == Repaired then R.OnUpdateBuffer(n.recv, i, b) else R.OnUpdateBufferShipped(n.recv, i, b)
      case Fatal(c) => Abort(c)
      case Ok(h) =>
        Next(WithNode(s, i, n.(recv := h.state, delivered := Delivered(n.delivered, b),
                               toProp := if h.forward.Some? then n.toProp + [h.forward.value] else n.toProp))
             .(wires := s.wires[i := s.wires[i][1..]]))
  }

  // The propagator merges a forwarded buffer.
  function DoForward(s: System, i: nat): (r: Outcome)
    requires WellFormed(s) && i < Size(s)
    ensures r.Next? ==> WellFormed(r.s) && Size(r.s) == Size(s)
  {
    var n := s.nodes[i];
    if n.toProp == [] || n.prop.held.Some? then Disabled
    else match P.OnUpdateBuffer(n.prop, n.toProp[0])
      case Fatal(c) => Abort(c)
      case Ok(q) => Next(WithNode(s, i, n.(prop := q, toProp := n.toProp[1..])))
  }

  // The merge as shipped, whose iteration reaches only the ranges in `seen`.
  function DoForwardSeen(s: System, i: nat, seen: set<int>): (r: Outcome)
    requires WellFormed(s) && i < Size(s)
    ensures r.Next? ==> WellFormed(r.s) && Size(r.s) == Size(s)
  {
    var n := s.nodes[i];
    if n.toProp == [] || n.prop.held.Some? then Disabled
    else match P.OnUpdateBufferSeen(n.prop, n.toProp[0], seen)
      case Fatal(c) => Abort(c)
      case Ok(q) => Next(WithNode(s, i, n.(prop := q, toProp := n.toProp[1..])))
  }

  function Step(s: System, a: Action, v: Variant): (r: Outcome)
    requires WellFormed(s)
    ensures r.Next? ==> WellFormed(r.s) && Size(r.s) == Size(s)
  {
    if a.i >= Size(s) then Disabled
    else match a
      case Inc(i, thread, key, delta) => DoInc(s, i, thread, key, delta)
      case Log(i, at) => DoLog(s, i, at)
      case Timer(i) => DoTimer(s, i)
      case Record(i) => DoRecord(s, i)
      case Send(i) => DoSend(s, i)
      case Receive(i) => DoReceive(s, i, v)
      case Forward(i) => DoForward(s, i)
  }

  // A run takes the given actions one after the other; it stops at one that is not enabled or that aborts.
  function Run(s: System, actions: seq<Action>, v: Variant): (r: Outcome)
    requires WellFormed(s)
    ensures r.Next? ==> WellFormed(r.s) && Size(r.s) == Size(s)
    decreases |actions|
  {
    if actions == [] then Next(s)
    else match Step(s, actions[0], v)
      case Next(t) => Run(t, actions[1..], v)
      case stop => stop
  }

  // A run followed by one more action.
  lemma {:induction false} StopsWith(s: System, actions: seq<Action>, a: Action, v: Variant, t: System)
    requires WellFormed(s) && Run(s, actions, v) == Next(t)
    ensures Run(s, actions + [a], v) == Step(t, a, v)
    decreases |actions|
  {
    hide Step;
    if actions == [] {
      assert ([] + [a])[1..] == [];
    } else {
      assert (actions + [a])[1..] == actions[1..] + [a];
      StopsWith(Step(s, actions[0], v).s, actions[1..], a, v, t);
    }
  }
}
