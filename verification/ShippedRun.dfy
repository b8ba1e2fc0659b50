/** A run on which the shipped receiver aborts: two nodes, two batches of node 0 merged at node 1 with an increment of its own. */
module ShippedRun {
  import opened Int32
  import opened Messages
  import opened Ring
  import P = PropagatorSpec
  import R = ReceiverSpec

  // One increment logged, flushed, recorded and sent.
  function Round(i: nat, key: int): seq<Action> {
    [Action.Inc(i, 0, key, 1), Log(i, 0), Timer(i), Record(i), Send(i)]
  }

  function Pass(i: nat): seq<Action> {
    [Receive(i), Forward(i)]
  }

  // A run followed by one more step.
  lemma {:induction false} Then(s: System, actions: seq<Action>, a: Action, v: Variant, t: System, u: System)
    requires WellFormed(s) && Run(s, actions, v) == Next(t) && Step(t, a, v) == Next(u)
    ensures Run(s, actions + [a], v) == Next(u)
    decreases |actions|
  {
    hide Step;
    if actions == [] {
      assert ([] + [a])[1..] == [];
    } else {
      assert (actions + [a])[1..] == actions[1..] + [a];
      Then(Step(s, actions[0], v).s, actions[1..], a, v, t, u);
    }
  }

  // Node i has nothing of its own under way.
  predicate Quiet(n: Node) {
    n.queued == [] && n.prop.own == map[] && n.prop.held.None? && n.toReceiver == [] && n.acks == 0
    && n.prop.ownRange.st == n.prop.ownRange.end + 1
  }

  // What a round of a quiet node puts in its queue and on its wire, and what it leaves.
  function RoundRange(n: Node): Range {
    Range(n.prop.ownRange.st, n.prop.ownRange.st)
  }

  function RoundBatch(n: Node, i: nat, key: int): Buffer {
    Buffer(AddAt(map[], key, 1), map[i := RoundRange(n)])
  }

  function RoundBuffer(n: Node, i: nat, key: int): Buffer {
    Buffer(AddAt(n.prop.store, key, 1), P.Pending(n.prop.peers)[i := RoundRange(n)])
  }

  function RoundProp(n: Node): P.State {
    P.State(map[], map[], P.Emptied(RoundRange(n)),
            P.AllEmptied(n.prop.peers), None)
  }

  function RoundNode(n: Node, i: nat, key: int): Node {
    n.(recv := R.State(AddAt(n.recv.table, key, 1), n.recv.queue + [RoundBatch(n, i, key)]), prop := RoundProp(n))
  }

  lemma RoundFlush(n: Node, i: nat, key: int)
    requires Quiet(n)
    ensures P.OnTimer(P.OnUpdateLog(n.prop, Messages.Inc(key, 1)), i)
         == Ok((RoundProp(n).(held := Some(RoundBuffer(n, i, key))), P.RecordFirst(RoundBatch(n, i, key), RoundBuffer(n, i, key))))
    ensures P.OnUpdateLog(n.prop, Messages.Inc(key, 1)).store != map[] && RoundProp(n).held.None?
  {
    var p := P.OnUpdateLog(n.prop, Messages.Inc(key, 1));
    assert key in p.store && key in p.own;
    assert p.ownRange == RoundRange(n);
  }

  lemma RoundSteps(s: System, i: nat, key: int, v: Variant) returns (s1: System, s2: System, s3: System, s4: System, s5: System)
    requires WellFormed(s) && i < Size(s) && Quiet(s.nodes[i]) && FitsKey(key)
    ensures DoInc(s, i, 0, key, 1) == Next(s1)
    ensures WellFormed(s1) && Size(s1) == Size(s) && DoLog(s1, i, 0) == Next(s2)
    ensures WellFormed(s2) && Size(s2) == Size(s) && DoTimer(s2, i) == Next(s3)
    ensures WellFormed(s3) && Size(s3) == Size(s) && DoRecord(s3, i) == Next(s4)
    ensures WellFormed(s4) && Size(s4) == Size(s) && DoSend(s4, i) == Next(s5)
    ensures s5.nodes == s.nodes[i := RoundNode(s.nodes[i], i, key)]
    ensures s5.wires == s.wires[Succ(Size(s), i) := s.wires[Succ(Size(s), i)] + [RoundBuffer(s.nodes[i], i, key)]]
    ensures WellFormed(s5)
  {
    hide P.OnTimer, P.OnUpdateLog, RoundProp, RoundBuffer, RoundBatch;
    var n := s.nodes[i];
    RoundFlush(n, i, key);
    s1 := DoInc(s, i, 0, key, 1).s;
    s2 := DoLog(s1, i, 0).s;
    assert s1.nodes[i].queued == [Queued(0, Messages.Inc(key, 1))];
    Kept(n, key);
    s3 := DoTimer(s2, i).s;
    s4 := DoRecord(s3, i).s;
    s5 := DoSend(s4, i).s;
    assert s2.nodes[i].queued == n.queued;
    assert s5.nodes[i] == RoundNode(n, i, key);
  }

  lemma Kept(n: Node, key: int)
    ensures P.OnUpdateLog(n.prop, Messages.Inc(key, 1)).held == n.prop.held
  {}

  // A round is a run.
  lemma RoundRuns(s0: System, before: seq<Action>, s: System, i: nat, key: int, v: Variant) returns (t: System)
    requires WellFormed(s0) && Run(s0, before, v) == Next(s) && WellFormed(s) && i < Size(s) && Quiet(s.nodes[i]) && FitsKey(key)
    ensures Run(s0, before + Round(i, key), v) == Next(t) && WellFormed(t)
    ensures t.nodes == s.nodes[i := RoundNode(s.nodes[i], i, key)]
    ensures t.wires == s.wires[Succ(Size(s), i) := s.wires[Succ(Size(s), i)] + [RoundBuffer(s.nodes[i], i, key)]]
  {
    hide Run, DoInc, DoLog, DoTimer, DoRecord, DoSend, RoundNode, RoundBuffer;
    var s1, s2, s3, s4, s5 := RoundSteps(s, i, key, v);
    var acts := Round(i, key);
    Then(s0, before, acts[0], v, s, s1);
    Then(s0, before + [acts[0]], acts[1], v, s1, s2);
    Then(s0, before + [acts[0]] + [acts[1]], acts[2], v, s2, s3);
    Then(s0, before + [acts[0]] + [acts[1]] + [acts[2]], acts[3], v, s3, s4);
    Then(s0, before + [acts[0]] + [acts[1]] + [acts[2]] + [acts[3]], acts[4], v, s4, s5);
    assert before + [acts[0]] + [acts[1]] + [acts[2]] + [acts[3]] + [acts[4]] == before + acts;
    t := s5;
  }

  // A buffer of somebody else's that continues what is held is received and merged.
  lemma PassRuns(s0: System, before: seq<Action>, s: System, i: nat, v: Variant) returns (t: System)
    requires WellFormed(s0) && Run(s0, before, v) == Next(s) && WellFormed(s) && i < Size(s)
    requires s.wires[i] != [] && i !in s.wires[i][0].ranges && s.wires[i][0].ranges != map[]
    requires s.nodes[i].toProp == [] && s.nodes[i].prop.held.None? && P.Contiguous(s.nodes[i].prop.peers, s.wires[i][0].ranges)
    ensures Run(s0, before + Pass(i), v) == Next(t) && WellFormed(t) && Size(t) == Size(s)
    ensures var n, b := s.nodes[i], s.wires[i][0];
            && t.wires == s.wires[i := s.wires[i][1..]]
            && t.nodes == s.nodes[i := t.nodes[i]]
            && t.nodes[i] == n.(recv := n.recv.(table := AddAll(n.recv.table, b.updates)), delivered := Delivered(n.delivered, b),
                                prop := n.prop.(store := AddAll(n.prop.store, b.updates), peers := P.Extend(n.prop.peers, b.ranges)))
  {
    hide Run, AddAll, P.Extend;
    var b := s.wires[i][0];
    assert b.ranges - {i} == b.ranges;
    var s1 := DoReceive(s, i, v).s;
    assert DoReceive(s, i, v) == Next(s1) && s1.nodes[i].toProp == [b];
    t := DoForward(s1, i).s;
    assert DoForward(s1, i) == Next(t);
    Then(s0, before, Receive(i), v, s, s1);
    Then(s0, before + [Receive(i)], Forward(i), v, s1, t);
    assert before + [Receive(i)] + [Forward(i)] == before + Pass(i);
  }

  // Two batches of node 0 go out, node 1 merges both and adds an increment of its own; when the merged buffer comes back,
  // node 0 finds its second batch one past where it looks for it.
  function Scenario(): seq<Action> {
    Round(0, 7) + Round(0, 7) + Pass(1) + Pass(1) + Round(1, 8)
  }

  // After node 0's two rounds.
  lemma TwoSent() returns (t: System)
    ensures WellFormed(Start(2)) && Run(Start(2), Round(0, 7) + Round(0, 7), Shipped) == Next(t) && WellFormed(t) && Size(t) == 2
    ensures t.wires[0] == [] && |t.wires[1]| == 2 && t.nodes[1] == Start(2).nodes[1]
    ensures t.wires[1][0] == Buffer(map[7 := 1], map[0 := Range(0, 0)])
    ensures t.wires[1][1] == Buffer(map[7 := 1], map[0 := Range(1, 1)])
    ensures t.nodes[0].recv.queue == [Buffer(map[7 := 1], map[0 := Range(0, 0)]), Buffer(map[7 := 1], map[0 := Range(1, 1)])]
  {
    hide Run;
    var s0 := Start(2);
    EmptyRun(s0, Shipped);
    var s1 := RoundRuns(s0, [], s0, 0, 7, Shipped);
    var m := s1.nodes[0];
    assert [] + Round(0, 7) == Round(0, 7);
    assert P.Pending(m.prop.peers) == map[] && m.prop.store == map[];
    t := RoundRuns(s0, Round(0, 7), s1, 0, 7, Shipped);
  }

  // Node 1 has merged both.
  lemma BothMerged() returns (t: System)
    ensures WellFormed(Start(2)) && Run(Start(2), Round(0, 7) + Round(0, 7) + Pass(1) + Pass(1), Shipped) == Next(t)
    ensures WellFormed(t) && Size(t) == 2 && t.wires[0] == [] && Quiet(t.nodes[1])
    ensures t.nodes[1].prop.peers == map[0 := Range(0, 1)] && 7 in t.nodes[1].prop.store && t.nodes[1].prop.ownRange == Range(0, -1)
    ensures t.nodes[0].recv.queue == [Buffer(map[7 := 1], map[0 := Range(0, 0)]), Buffer(map[7 := 1], map[0 := Range(1, 1)])]
  {
    hide Run, Wrap, Round;
    var s2 := TwoSent();
    assert 0 in s2.wires[1][0].ranges && 0 in s2.wires[1][1].ranges;
    var s3 := PassRuns(Start(2), Round(0, 7) + Round(0, 7), s2, 1, Shipped);
    assert s3.nodes[1].prop.peers == map[0 := Range(0, 0)];
    t := PassRuns(Start(2), Round(0, 7) + Round(0, 7) + Pass(1), s3, 1, Shipped);
  }

  lemma MergedReturns() returns (t: System)
    ensures WellFormed(Start(2)) && Run(Start(2), Scenario(), Shipped) == Next(t) && WellFormed(t) && Size(t) == 2
    ensures |t.wires[0]| == 1 && t.wires[0][0].ranges == map[0 := Range(0, 1), 1 := Range(0, 0)] && 7 in t.wires[0][0].updates
    ensures t.nodes[0].recv.queue == [Buffer(map[7 := 1], map[0 := Range(0, 0)]), Buffer(map[7 := 1], map[0 := Range(1, 1)])]
  {
    hide Run, Wrap, Round;
    var s := BothMerged();
    t := RoundRuns(Start(2), Round(0, 7) + Round(0, 7) + Pass(1) + Pass(1), s, 1, 8, Shipped);
  }

  lemma EmptyRun(s: System, v: Variant)
    requires WellFormed(s)
    ensures Run(s, [], v) == Next(s)
  {}

  // The second batch starts at 1; the loop looks for it at 0, the end of the first.
  lemma SecondBatchMissed(r: R.State, b: Buffer)
    requires b.ranges == map[0 := Range(0, 1), 1 := Range(0, 0)] && 7 in b.updates
    requires r.queue == [Buffer(map[7 := 1], map[0 := Range(0, 0)]), Buffer(map[7 := 1], map[0 := Range(1, 1)])]
    ensures R.OnUpdateBufferShipped(r, 0, b) == Fatal(BatchOutOfOrder)
  {
    assert 1 in b.ranges - {0};
    var rest := SubAll(b.updates, r.queue[0].updates);
    assert R.CheckFront(r.queue, 0, Range(0, 1), 0) == Ok(Range(0, 0));
    assert r.queue[1..][0] == r.queue[1];
    assert R.CancelShipped(r.queue[1..], rest, 0, Range(0, 1), 0) == Fatal(BatchOutOfOrder);
  }

  // The shipped receiver aborts on this run, on which no CHECK of the repaired one fails.
  lemma ShippedAborts()
    ensures WellFormed(Start(2)) && Run(Start(2), Scenario() + [Receive(0)], Shipped) == Abort(BatchOutOfOrder)
  {
    hide Scenario, Run, R.OnUpdateBufferShipped;
    var t := MergedReturns();
    SecondBatchMissed(t.nodes[0].recv, t.wires[0][0]);
    StopsWith(Start(2), Scenario(), Receive(0), Shipped, t);
  }

  // ---- the early drop ----

  // A node alone in its ring: the buffer that comes back names only its receiver and is dropped, but its batch stays queued.
  // The repaired receiver pops it.
  lemma DroppedBatchStays() returns (t: System, u: System)
    ensures WellFormed(Start(1)) && Run(Start(1), Round(0, 7) + [Receive(0)], Shipped) == Next(t) && WellFormed(t) && Size(t) == 1
    ensures t.wires[0] == [] && t.nodes[0].recv.queue == [Buffer(map[7 := 1], map[0 := Range(0, 0)])]
    ensures Run(Start(1), Round(0, 7) + [Receive(0)], Repaired) == Next(u) && WellFormed(u) && Size(u) == 1
    ensures u.wires[0] == [] && u.nodes[0].recv.queue == [] && u.nodes[0].recv.table == t.nodes[0].recv.table == map[7 := 1]
  {
    hide Run;
    var s := OneSent(Shipped);
    var r := OneSent(Repaired);
    t, u := DoReceive(s, 0, Shipped).s, DoReceive(r, 0, Repaired).s;
    var b := Buffer(map[7 := 1], map[0 := Range(0, 0)]);
    assert b.ranges - {0} == map[];
    PopsOne(s.nodes[0].recv, b);
    StopsWith(Start(1), Round(0, 7), Receive(0), Shipped, s);
    StopsWith(Start(1), Round(0, 7), Receive(0), Repaired, r);
  }

  lemma OneSent(v: Variant) returns (s: System)
    ensures WellFormed(Start(1)) && Run(Start(1), Round(0, 7), v) == Next(s) && WellFormed(s) && Size(s) == 1
    ensures s.wires == [[Buffer(map[7 := 1], map[0 := Range(0, 0)])]]
    ensures s.nodes[0].recv == R.State(map[7 := 1], [Buffer(map[7 := 1], map[0 := Range(0, 0)])])
  {
    hide Run;
    var s0 := Start(1);
    EmptyRun(s0, v);
    assert [] + Round(0, 7) == Round(0, 7) && Quiet(s0.nodes[0]);
    s := RoundRuns(s0, [], s0, 0, 7, v);
    assert P.Pending(s0.nodes[0].prop.peers) == map[];
    assert RoundBuffer(s0.nodes[0], 0, 7) == Buffer(map[7 := 1], map[0 := Range(0, 0)]);
    assert s0.wires[0] + [RoundBuffer(s0.nodes[0], 0, 7)] == [RoundBuffer(s0.nodes[0], 0, 7)];
  }

  lemma PopsOne(r: R.State, b: Buffer)
    requires b == Buffer(map[7 := 1], map[0 := Range(0, 0)]) && r.queue == [b]
    ensures R.OnUpdateBuffer(r, 0, b) == Ok(R.Handled(r.(queue := []), None))
    ensures R.OnUpdateBufferShipped(r, 0, b) == Ok(R.Handled(r, None))
  {
    assert b.ranges - {0} == map[];
    assert r.queue[1..] == [];
  }

  // ---- both departures together ----

  // A propagator with nothing of its own flushes what it has merged.
  lemma RelayRuns(s0: System, before: seq<Action>, s: System, i: nat, v: Variant) returns (t: System)
    requires WellFormed(s0) && Run(s0, before, v) == Next(s) && WellFormed(s) && i < Size(s)
    requires s.nodes[i].prop.held.None? && s.nodes[i].prop.store != map[] && s.nodes[i].prop.own == map[] && s.nodes[i].prop.ownRange.Empty()
    ensures Run(s0, before + [Timer(i)], v) == Next(t) && WellFormed(t) && Size(t) == Size(s)
    ensures var p := s.nodes[i].prop;
            && t.wires == s.wires[Succ(Size(s), i) := s.wires[Succ(Size(s), i)] + [Buffer(p.store, P.Pending(p.peers))]]
            && t.nodes == s.nodes[i := s.nodes[i].(prop := p.(store := map[], ownRange := P.Emptied(p.ownRange), peers := P.AllEmptied(p.peers)))]
  {
    hide Run, P.Pending, P.AllEmptied;
    t := DoTimer(s, i).s;
    assert DoTimer(s, i) == Next(t);
    Then(s0, before, Timer(i), v, s, t);
  }

  // Node 0's first batch comes back in a buffer of its own and is dropped; its second comes back with an increment of node 1.
  function DropThenReturn(): seq<Action> {
    Round(0, 7) + Pass(1) + [Timer(1)] + [Receive(0)] + Round(0, 7) + Pass(1) + Round(1, 8)
  }

  const FIRST: Buffer := Buffer(map[7 := 1], map[0 := Range(0, 0)])
  const SECOND: Buffer := Buffer(map[7 := 1], map[0 := Range(1, 1)])

  lemma FirstRound() returns (t: System)
    ensures WellFormed(Start(2)) && Run(Start(2), Round(0, 7), Shipped) == Next(t) && WellFormed(t) && Size(t) == 2
    ensures t.wires[0] == [] && t.wires[1] == [FIRST] && t.nodes[1] == Start(2).nodes[1]
    ensures t.nodes[0].recv == R.State(map[7 := 1], [FIRST]) && Quiet(t.nodes[0]) && t.nodes[0].toProp == []
    ensures t.nodes[0].prop == P.State(map[], map[], Range(1, 0), map[], None)
  {
    hide Run, RoundBuffer;
    var s0 := Start(2);
    EmptyRun(s0, Shipped);
    assert [] + Round(0, 7) == Round(0, 7) && Quiet(s0.nodes[0]);
    FreshBuffer(s0.nodes[0], 0, 7);
    t := RoundRuns(s0, [], s0, 0, 7, Shipped);
    assert s0.wires[1] + [FIRST] == [FIRST];
    assert P.AllEmptied(s0.nodes[0].prop.peers) == map[];
  }

  lemma FreshBuffer(n: Node, i: nat, key: int)
    requires n.prop.store == map[] && n.prop.peers == map[]
    ensures RoundBuffer(n, i, key) == Buffer(map[key := 1], map[i := RoundRange(n)]) == RoundBatch(n, i, key)
  {
    assert P.Pending(n.prop.peers) == map[];
  }

  lemma Dropped() returns (t: System)
    ensures WellFormed(Start(2)) && Run(Start(2), Round(0, 7) + Pass(1) + [Timer(1)] + [Receive(0)], Shipped) == Next(t)
    ensures WellFormed(t) && Size(t) == 2 && t.wires[0] == t.wires[1] == []
    ensures t.nodes[0].recv.queue == [FIRST] && Quiet(t.nodes[0]) && t.nodes[0].prop == P.State(map[], map[], Range(1, 0), map[], None)
    ensures Quiet(t.nodes[1]) && t.nodes[1].toProp == []
    ensures t.nodes[1].prop == P.State(map[], map[], Range(0, -1), map[0 := Range(1, 0)], None)
  {
    hide Run, Round, Pass, R.OnUpdateBufferShipped, AddAll, P.Extend, P.Pending, P.AllEmptied;
    var a := FirstRound();
    assert 0 in FIRST.ranges;
    var b := PassRuns(Start(2), Round(0, 7), a, 1, Shipped);
    Merged();
    assert 7 in b.nodes[1].prop.store;
    var c := RelayRuns(Start(2), Round(0, 7) + Pass(1), b, 1, Shipped);
    assert b.wires[0] + [FIRST] == [FIRST];
    OnlyMine(c.nodes[0].recv, FIRST);
    t := DoReceive(c, 0, Shipped).s;
    StopsWith(Start(2), Round(0, 7) + Pass(1) + [Timer(1)], Receive(0), Shipped, c);
  }

  lemma Merged()
    ensures AddAll(map[], FIRST.updates) == map[7 := 1] && P.Extend(map[], FIRST.ranges) == map[0 := Range(0, 0)]
    ensures P.Pending(map[0 := Range(0, 0)]) == map[0 := Range(0, 0)] && P.AllEmptied(map[0 := Range(0, 0)]) == map[0 := Range(1, 0)]
    ensures P.Extend(map[0 := Range(1, 0)], SECOND.ranges) == map[0 := Range(1, 1)]
    ensures P.Pending(map[0 := Range(1, 1)]) == map[0 := Range(1, 1)]
  {}

  lemma OnlyMine(r: R.State, b: Buffer)
    requires b.ranges.Keys == {0}
    ensures R.OnUpdateBufferShipped(r, 0, b) == Ok(R.Handled(r, None))
  {
    assert b.ranges - {0} == map[];
  }

  lemma SecondReturns() returns (t: System)
    ensures WellFormed(Start(2)) && Run(Start(2), DropThenReturn(), Shipped) == Next(t) && WellFormed(t) && Size(t) == 2
    ensures t.nodes[0].recv.queue == [FIRST, SECOND]
    ensures t.wires[0] == [Buffer(map[7 := 1, 8 := 1], map[0 := Range(1, 1), 1 := Range(0, 0)])]
  {
    hide Run, Round, Pass, RoundBuffer, AddAll, P.Extend, P.Pending, P.AllEmptied;
    var before := Round(0, 7) + Pass(1) + [Timer(1)] + [Receive(0)];
    var a := Dropped();
    FreshBuffer(a.nodes[0], 0, 7);
    var b := RoundRuns(Start(2), before, a, 0, 7, Shipped);
    assert a.wires[1] + [SECOND] == [SECOND] && 0 in SECOND.ranges;
    assert [FIRST] + [SECOND] == [FIRST, SECOND];
    Merged();
    var c := PassRuns(Start(2), before + Round(0, 7), b, 1, Shipped);
    t := RoundRuns(Start(2), before + Round(0, 7) + Pass(1), c, 1, 8, Shipped);
    BothNamed(c.nodes[1]);
    assert c.wires[0] + [RoundBuffer(c.nodes[1], 1, 8)] == [RoundBuffer(c.nodes[1], 1, 8)];
  }

  lemma BothNamed(n: Node)
    requires n.prop == P.State(map[7 := 1], map[], Range(0, -1), map[0 := Range(1, 1)], None)
    ensures RoundBuffer(n, 1, 8) == Buffer(map[7 := 1, 8 := 1], map[0 := Range(1, 1), 1 := Range(0, 0)])
  {
    Merged();
  }

  // The batch left by the early drop is at the front of the queue when the next range comes back, and is not contained in it.
  lemma DropThenAbort()
    ensures WellFormed(Start(2)) && Run(Start(2), DropThenReturn() + [Receive(0)], Shipped) == Abort(BatchNotContained)
  {
    hide DropThenReturn, Run, R.OnUpdateBufferShipped;
    var t := SecondReturns();
    FirstMissed(t.nodes[0].recv, t.wires[0][0]);
    StopsWith(Start(2), DropThenReturn(), Receive(0), Shipped, t);
  }

  lemma FirstMissed(r: R.State, b: Buffer)
    requires b.ranges == map[0 := Range(1, 1), 1 := Range(0, 0)] && r.queue == [FIRST, SECOND]
    ensures R.OnUpdateBufferShipped(r, 0, b) == Fatal(BatchNotContained)
  {
    assert 1 in b.ranges - {0};
  }
}
