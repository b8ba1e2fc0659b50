/** What the ring's promise loses when the propagator iterates over node ranges as shipped: the receiver has deleted the own
    range from the forwarded buffer, and the iteration stops at the hole. */
module HoleRun {
  import opened Int32
  import opened Messages
  import opened Ring
  import opened Invariant
  import opened RingSteps
  import RingReceive
  import opened ShippedRun
  import P = PropagatorSpec
  import R = ReceiverSpec

  // In every reachable state, merging with only some ranges seen does what it should exactly when all of them are seen.
  lemma ForwardSeenAgrees(s: System, i: nat, seen: set<int>)
    requires Inv(s) && i < Size(s) && s.nodes[i].toProp != [] && s.nodes[i].prop.held.None?
    ensures DoForwardSeen(s, i, seen) == DoForward(s, i) <==> s.nodes[i].toProp[0].ranges.Keys <= seen
  {
    hide NodeOK, WireOK, P.OnUpdateBuffer, P.OnUpdateBufferSeen;
    var n := s.nodes[i];
    AtNode(s, i);
    HeadRanges(n, i, s.logs, s.cuts);
    SeenAgrees(n.prop, n.toProp[0], seen);
    var r, q := P.OnUpdateBuffer(n.prop, n.toProp[0]), P.OnUpdateBufferSeen(n.prop, n.toProp[0], seen);
    if r.Ok? && q.Ok? && DoForwardSeen(s, i, seen) == DoForward(s, i) {
      assert DoForwardSeen(s, i, seen).s.nodes[i].prop == q.value && DoForward(s, i).s.nodes[i].prop == r.value;
    }
  }

  lemma HeadRanges(n: Node, i: nat, logs: seq<seq<Inc>>, cuts: seq<set<int>>)
    requires NodeOK(n, i, logs, cuts) && i < |logs| && n.toProp != []
    ensures P.OnUpdateBuffer(n.prop, n.toProp[0]).Ok? && forall o | o in n.toProp[0].ranges :: !n.toProp[0].ranges[o].Empty()
  {
    ForwardContinues(n, i, logs, cuts);
    assert n.toProp[0] in n.toProp;
  }

  lemma SeenAgrees(p: P.State, b: Buffer, seen: set<int>)
    requires P.OnUpdateBuffer(p, b).Ok? && forall o | o in b.ranges :: !b.ranges[o].Empty()
    ensures P.OnUpdateBufferSeen(p, b, seen) == P.OnUpdateBuffer(p, b) <==> b.ranges.Keys <= seen
  {
    if b.ranges.Keys <= seen {
      assert Restrict(b.ranges, seen) == b.ranges;
    } else {
      if forall o | o in b.ranges :: o in seen {
        assert false;
      }
      var o :| o in b.ranges && o !in seen;
      assert P.Extend(p.peers, b.ranges)[o].end == b.ranges[o].end;
      assert o in P.Extend(p.peers, Restrict(b.ranges, seen)) ==> P.Extend(p.peers, Restrict(b.ranges, seen))[o] == p.peers[o];
    }
  }

  // Two nodes, one key, one increment each. Node 1 flushes its own increment together with node 0's; node 0 cancels its own
  // part and deletes its own range, which node 1 packed first, so that node 0's propagator merges node 1's increment without
  // any range. With the next increment of node 0 it is sent back to node 1 under node 0's name, and counted there again:
  // three increments were issued, and node 1 reads four.
  lemma CountedTwice() returns (s: System, t: System, u: System)
    ensures WellFormed(Start(2)) && Run(Start(2), Round(0, 7) + Pass(1) + Round(1, 7) + [Receive(0)], Repaired) == Next(s)
    ensures WellFormed(s) && Size(s) == 2 && DoForwardSeen(s, 0, {}) == Next(t)
    ensures WellFormed(t) && Size(t) == 2 && Run(t, Round(0, 7) + [Receive(1)], Repaired) == Next(u)
    ensures Size(u) == 2 && Get(u.nodes[1].recv.table, 7) == 4
  {
    hide Run, Round, Pass, RoundNode, RoundBuffer, R.OnUpdateBuffer;
    s := BothFlushed();
    t := DoForwardSeen(s, 0, {}).s;
    MergedUnnamed(s.nodes[0].prop, Buffer(map[7 := 1], map[1 := Range(0, 0)]));
    EmptyRun(t, Repaired);
    assert Quiet(t.nodes[0]);
    var v := RoundRuns(t, [], t, 0, 7, Repaired);
    assert [] + Round(0, 7) == Round(0, 7);
    SecondFlush(t.nodes[0]);
    assert t.wires[1] + [RoundBuffer(t.nodes[0], 0, 7)] == [RoundBuffer(t.nodes[0], 0, 7)];
    assert v.wires[1] == [Buffer(map[7 := 2], map[0 := Range(1, 1)])];
    Applied(v.nodes[1].recv);
    u := DoReceive(v, 1, Repaired).s;
    StopsWith(t, Round(0, 7), Receive(1), Repaired, v);
  }

  // Node 1's increment enters node 0's store, and no range with it.
  lemma MergedUnnamed(p: P.State, b: Buffer)
    requires b == Buffer(map[7 := 1], map[1 := Range(0, 0)]) && p.store == map[] && p.peers == map[]
    ensures P.OnUpdateBufferSeen(p, b, {}) == Ok(p.(store := map[7 := 1]))
  {
    assert Restrict(b.ranges, {}) == map[] && AddAll(map[], b.updates) == map[7 := 1];
  }

  lemma SecondFlush(n: Node)
    requires n.prop.store == map[7 := 1] && n.prop.peers == map[] && n.prop.ownRange == Range(1, 0)
    ensures RoundBuffer(n, 0, 7) == Buffer(map[7 := 2], map[0 := Range(1, 1)])
  {
    assert P.Pending(n.prop.peers) == map[];
  }

  lemma Applied(r: R.State)
    requires r.table == map[7 := 2]
    ensures R.OnUpdateBuffer(r, 1, Buffer(map[7 := 2], map[0 := Range(1, 1)])).Ok?
    ensures R.OnUpdateBuffer(r, 1, Buffer(map[7 := 2], map[0 := Range(1, 1)])).value.state.table == map[7 := 4]
  {
    assert 0 in map[0 := Range(1, 1)];
  }

  lemma FirstSent(n: Node)
    requires n.prop == P.START && n.recv == R.State(map[], [])
    ensures RoundBuffer(n, 0, 7) == Buffer(map[7 := 1], map[0 := Range(0, 0)]) && P.AllEmptied(n.prop.peers) == map[]
    ensures RoundNode(n, 0, 7).recv == R.State(map[7 := 1], [Buffer(map[7 := 1], map[0 := Range(0, 0)])])
  {
    assert P.Pending(n.prop.peers) == map[];
  }

  lemma FirstTaken()
    ensures AddAll(map[], map[7 := 1]) == map[7 := 1] && P.Extend(map[], map[0 := Range(0, 0)]) == map[0 := Range(0, 0)]
  {}

  // Node 1 has merged node 0's first increment.
  lemma FirstMerged() returns (b: System)
    ensures WellFormed(Start(2)) && Run(Start(2), Round(0, 7) + Pass(1), Repaired) == Next(b) && WellFormed(b) && Size(b) == 2
    ensures b.wires[0] == b.wires[1] == [] && Quiet(b.nodes[0]) && Quiet(b.nodes[1])
    ensures b.nodes[0].recv == R.State(map[7 := 1], [Buffer(map[7 := 1], map[0 := Range(0, 0)])]) && b.nodes[0].toProp == []
    ensures b.nodes[0].prop == P.State(map[], map[], Range(1, 0), map[], None)
    ensures b.nodes[1].recv.table == map[7 := 1] && b.nodes[1].toProp == []
    ensures b.nodes[1].prop == P.State(map[7 := 1], map[], Range(0, -1), map[0 := Range(0, 0)], None)
  {
    hide Run, Round, Pass, RoundBuffer, P.Extend, AddAll;
    var s0 := Start(2);
    EmptyRun(s0, Repaired);
    var a := RoundRuns(s0, [], s0, 0, 7, Repaired);
    var sent := Buffer(map[7 := 1], map[0 := Range(0, 0)]);
    assert [] + Round(0, 7) == Round(0, 7);
    FirstSent(s0.nodes[0]);
    assert s0.wires[1] + [sent] == [sent];
    assert 0 in sent.ranges;
    b := PassRuns(s0, Round(0, 7), a, 1, Repaired);
    FirstTaken();
  }

  // What node 1 sends back, and what is left of it when node 0 has taken out its own part.
  lemma BothInOne(n: Node)
    requires n.prop == P.State(map[7 := 1], map[], Range(0, -1), map[0 := Range(0, 0)], None) && n.recv.table == map[7 := 1]
    ensures RoundBuffer(n, 1, 7) == Buffer(map[7 := 2], map[0 := Range(0, 0), 1 := Range(0, 0)])
    ensures RoundNode(n, 1, 7).recv.table == map[7 := 2]
  {
    assert P.Pending(n.prop.peers) == map[0 := Range(0, 0)];
  }

  // Both increments back at node 0, its own cancelled.
  lemma BothFlushed() returns (s: System)
    ensures WellFormed(Start(2)) && Run(Start(2), Round(0, 7) + Pass(1) + Round(1, 7) + [Receive(0)], Repaired) == Next(s)
    ensures WellFormed(s) && Size(s) == 2 && s.nodes[0].toProp == [Buffer(map[7 := 1], map[1 := Range(0, 0)])]
    ensures s.nodes[0].prop == P.State(map[], map[], Range(1, 0), map[], None) && Quiet(s.nodes[0])
    ensures s.wires[0] == s.wires[1] == [] && s.nodes[1].recv.table == map[7 := 2]
  {
    hide Run, Round, Pass, R.OnUpdateBuffer, RoundBuffer, RoundNode;
    var b := FirstMerged();
    var c := RoundRuns(Start(2), Round(0, 7) + Pass(1), b, 1, 7, Repaired);
    BothInOne(b.nodes[1]);
    var back := Buffer(map[7 := 2], map[0 := Range(0, 0), 1 := Range(0, 0)]);
    assert b.wires[0] + [back] == [back];
    OwnCancelled(c.nodes[0].recv, back);
    s := DoReceive(c, 0, Repaired).s;
    StopsWith(Start(2), Round(0, 7) + Pass(1) + Round(1, 7), Receive(0), Repaired, c);
  }

  lemma OwnCancelled(r: R.State, b: Buffer)
    requires b == Buffer(map[7 := 2], map[0 := Range(0, 0), 1 := Range(0, 0)])
    requires r == R.State(map[7 := 1], [Buffer(map[7 := 1], map[0 := Range(0, 0)])])
    ensures R.OnUpdateBuffer(r, 0, b) == Ok(R.Handled(R.State(map[7 := 2], []), Some(Buffer(map[7 := 1], map[1 := Range(0, 0)]))))
  {
    CancelledOne(r, b);
    hide R.Cancel;
    assert b.ranges - {0} == map[1 := Range(0, 0)];
    assert 1 in b.ranges - {0};
    assert AddAll(r.table, map[7 := 1]) == map[7 := 2];
  }

  lemma CancelledOne(r: R.State, b: Buffer)
    requires b.updates == map[7 := 2] && r.queue == [Buffer(map[7 := 1], map[0 := Range(0, 0)])]
    ensures R.Cancel(r.queue, b.updates, 0, Range(0, 0), 0) == Ok(R.Cancelled([], map[7 := 1]))
  {
    hide SubAll, R.Cancel;
    OneLeft();
    RingReceive.CancelUnfolds(r.queue, b.updates, 0, Range(0, 0), 0);
    assert r.queue[1..] == [];
  }

  lemma OneLeft()
    ensures SubAll(map[7 := 2], map[7 := 1]) == map[7 := 1]
  {}
}
