/** Every enabled step passes its checks and keeps the ring's invariant. */
module RingSteps {
  import opened Int32
  import opened Messages
  import opened Sums
  import opened Content
  import opened Ring
  import opened Invariant
  import P = PropagatorSpec
  import R = ReceiverSpec

  // ---- putting one changed node back into the ring ----

  ghost predicate OnlyOriginGrows(s: System, t: System, i: int) {
    && Extends(s.logs, t.logs) && CutsGrow(s.cuts, t.cuts)
    && forall o | 0 <= o < |s.logs| && o != i && o < |s.cuts| :: s.logs[o] == t.logs[o] && s.cuts[o] == t.cuts[o]
  }

  lemma AtNode(s: System, j: nat)
    requires Inv(s) && j < Size(s)
    ensures NodeOK(s.nodes[j], j, s.logs, s.cuts) && |s.nodes[j].delivered| == Size(s)
  {}

  // A step inside node i that neither sends nor delivers.
  lemma LocalStep(s: System, t: System, i: nat, n: Node)
    requires Inv(s) && WellFormed(t) && i < Size(s)
    requires t.nodes == s.nodes[i := n] && t.wires == s.wires && OnlyOriginGrows(s, t, i)
    requires NodeOK(n, i, t.logs, t.cuts) && n.delivered == s.nodes[i].delivered
    requires forall o | 0 <= o < Size(s) :: Sent(n.prop, i, o) == Sent(s.nodes[i].prop, i, o)
    ensures Inv(t)
  {
    hide NodeOK, WireOK;
    var size := Size(s);
    forall j: nat | j < size ensures NodeOK(t.nodes[j], j, t.logs, t.cuts) {
      if j != i {
        NodeGrows(s.nodes[j], j, s.logs, s.cuts, t.logs, t.cuts);
      }
    }
    forall j: nat | j < size
      ensures WireOK(t.wires[j], t.nodes[Pred(size, j)].prop, Pred(size, j), t.nodes[j].delivered, t.logs, t.cuts)
    {
      var k := Pred(size, j);
      assert t.nodes[j].delivered == s.nodes[j].delivered;
      WireGrows(s.wires[j], s.nodes[k].prop, k, s.nodes[j].delivered, s.logs, s.cuts, t.logs, t.cuts);
      WireSame(s.wires[j], s.nodes[k].prop, t.nodes[k].prop, k, s.nodes[j].delivered, t.logs, t.cuts);
    }
  }

  lemma WireSame(wire: seq<Buffer>, p: P.State, q: P.State, i: int, delivered: seq<int>, logs: seq<seq<Inc>>, cuts: seq<set<int>>)
    requires WireOK(wire, p, i, delivered, logs, cuts)
    requires forall o | 0 <= o < |logs| :: Sent(q, i, o) == Sent(p, i, o)
    ensures WireOK(wire, q, i, delivered, logs, cuts)
  {}

  lemma WireAppend(wire: seq<Buffer>, p: P.State, q: P.State, i: int, delivered: seq<int>, logs: seq<seq<Inc>>, cuts: seq<set<int>>, b: Buffer)
    requires WireOK(wire, p, i, delivered, logs, cuts) && Whole(b, logs, cuts) && |delivered| == |logs|
    requires forall o | o in b.ranges && 0 <= o < |logs| :: b.ranges[o].st == Sent(p, i, o)
    requires forall o | 0 <= o < |logs| :: Sent(q, i, o) == After(b, o, Sent(p, i, o))
    ensures WireOK(wire + [b], q, i, delivered, logs, cuts)
  {
    forall o | 0 <= o < |logs|
      ensures Chain(wire + [b], o, delivered[o], Sent(q, i, o))
    {
      ChainAppend(wire, b, o, delivered[o], Sent(p, i, o));
    }
  }

  // A step inside node i that puts buffer `b` on its outgoing wire.
  lemma SendingStep(s: System, t: System, i: nat, n: Node, b: Buffer)
    requires Inv(s) && WellFormed(t) && i < Size(s)
    requires t.nodes == s.nodes[i := n] && t.logs == s.logs && t.cuts == s.cuts
    requires t.wires == s.wires[Succ(Size(s), i) := s.wires[Succ(Size(s), i)] + [b]]
    requires NodeOK(n, i, t.logs, t.cuts) && n.delivered == s.nodes[i].delivered && Whole(b, s.logs, s.cuts)
    requires forall o | o in b.ranges && 0 <= o < Size(s) :: b.ranges[o].st == Sent(s.nodes[i].prop, i, o)
    requires forall o | 0 <= o < Size(s) :: Sent(n.prop, i, o) == After(b, o, Sent(s.nodes[i].prop, i, o))
    ensures Inv(t)
  {
    hide NodeOK, WireOK, Whole;
    var size := Size(s);
    forall j: nat | j < size
      ensures WireOK(t.wires[j], t.nodes[Pred(size, j)].prop, Pred(size, j), t.nodes[j].delivered, t.logs, t.cuts)
    {
      var k := Pred(size, j);
      AtNode(s, j);
      assert t.nodes[j].delivered == s.nodes[j].delivered;
      if j == Succ(size, i) {
        WireAppend(s.wires[j], s.nodes[i].prop, n.prop, i, s.nodes[j].delivered, s.logs, s.cuts, b);
      }
    }
  }

  // ---- the parts of a node that a step leaves alone ----

  lemma TableSame(n: Node, n': Node, i: int, logs: seq<seq<Inc>>)
    requires TableOK(n, i, logs)
    requires n'.recv.table == n.recv.table && n'.queued == n.queued && n'.delivered == n.delivered
    ensures TableOK(n', i, logs)
  {
    assert Applied(n', i, logs) == Applied(n, i, logs);
    forall k ensures TableAt(n', i, logs, k) {
      assert TableAt(n, i, logs, k);
    }
  }

  lemma ForwardSame(n: Node, n': Node, i: int, logs: seq<seq<Inc>>, cuts: seq<set<int>>)
    requires ForwardOK(n, i, logs, cuts) && n'.toProp == n.toProp && n'.delivered == n.delivered
    requires forall o | 0 <= o < |logs| && o != i :: Hi(All(n'.prop, i), o) == Hi(All(n.prop, i), o)
    ensures ForwardOK(n', i, logs, cuts)
  {}

  lemma QueueSame(n: Node, n': Node, i: int, logs: seq<seq<Inc>>, cuts: seq<set<int>>)
    requires QueueOK(n, i, logs, cuts) && Batches(n') == Batches(n) && n'.delivered == n.delivered
    requires Lo(All(n'.prop, i), i) == Lo(All(n.prop, i), i)
    ensures QueueOK(n', i, logs, cuts)
  {}

  // ---- Inc ----

  lemma QueuedAppend(queued: seq<Queued>, q: Queued, k: int)
    ensures QueuedSum(queued + [q], k) == QueuedSum(queued, k) + (if q.inc.key == k then q.inc.delta else 0)
  {
    assert (queued + [q])[..|queued|] == queued;
  }

  lemma {:induction false} QueuedRemove(queued: seq<Queued>, at: nat, k: int)
    requires at < |queued|
    ensures QueuedSum(queued, k)
         == QueuedSum(queued[..at] + queued[at + 1..], k) + (if queued[at].inc.key == k then queued[at].inc.delta else 0)
    decreases |queued|
  {
    var last := |queued| - 1;
    var rest := queued[..at] + queued[at + 1..];
    if at == last {
      assert rest == queued[..last];
    } else {
      var shorter := queued[..last];
      QueuedRemove(shorter, at, k);
      assert rest == shorter[..at] + shorter[at + 1..] + [queued[last]];
      QueuedAppend(shorter[..at] + shorter[at + 1..], queued[last], k);
    }
  }

  lemma IncTable(n: Node, i: int, logs: seq<seq<Inc>>, thread: int, key: int, delta: Value)
    requires TableOK(n, i, logs)
    ensures TableOK(n.(recv := n.recv.(table := AddAt(n.recv.table, key, delta)),
                       queued := n.queued + [Queued(thread, Messages.Inc(key, delta))]), i, logs)
  {
    var n' := n.(recv := n.recv.(table := AddAt(n.recv.table, key, delta)),
                 queued := n.queued + [Queued(thread, Messages.Inc(key, delta))]);
    forall k ensures TableAt(n', i, logs, k) {
      assert TableAt(n, i, logs, k);
      assert Applied(n', i, logs) == Applied(n, i, logs);
      QueuedAppend(n.queued, Queued(thread, Messages.Inc(key, delta)), k);
      AddToWrapped(Named(logs, Applied(n, i, logs), |logs|, k) + QueuedSum(n.queued, k), delta);
    }
  }

  lemma IncNode(n: Node, i: nat, logs: seq<seq<Inc>>, cuts: seq<set<int>>, n': Node, thread: int, key: int, delta: Value)
    requires NodeOK(n, i, logs, cuts)
    requires n' == n.(recv := n.recv.(table := AddAt(n.recv.table, key, delta)),
                      queued := n.queued + [Queued(thread, Messages.Inc(key, delta))])
    ensures NodeOK(n', i, logs, cuts)
  {
    IncTable(n, i, logs, thread, key, delta);
    ForwardSame(n, n', i, logs, cuts);
    assert Batches(n') == Batches(n);
    QueueSame(n, n', i, logs, cuts);
  }

  lemma IncKeeps(s: System, i: nat, thread: int, key: int, delta: Value)
    requires Inv(s) && i < Size(s)
    ensures DoInc(s, i, thread, key, delta).Next? ==> Inv(DoInc(s, i, thread, key, delta).s)
  {
    hide NodeOK, WireOK;
    if DoInc(s, i, thread, key, delta).Next? {
      var t := DoInc(s, i, thread, key, delta).s;
      IncNode(s.nodes[i], i, s.logs, s.cuts, t.nodes[i], thread, key, delta);
      LocalStep(s, t, i, t.nodes[i]);
    }
  }

  // ---- Log ----

  // What was named before an origin's log grows adds up to the same afterwards.
  lemma NamedGrows(logs: seq<seq<Inc>>, a: map<int, Range>, i: nat, inc: Messages.Inc, k: int)
    requires i < |logs| && forall o | 0 <= o < |logs| :: Hi(a, o) <= |logs[o]|
    ensures Named(logs[i := logs[i] + [inc]], a, |logs|, k) == Named(logs, a, |logs|, k)
  {
    hide Named, Part;
    var logs' := logs[i := logs[i] + [inc]];
    forall o | 0 <= o < |logs|
      ensures Part(logs[o], Lo(a, o), Hi(a, o), k) == Part(logs'[o], Lo(a, o), Hi(a, o), k)
    {
      PartPrefix(logs[o], logs'[o], Lo(a, o), Hi(a, o), k);
    }
    NamedSame(logs, a, logs', a, |logs|, k);
  }

  lemma LogTableAt(n: Node, i: nat, at: nat, logs: seq<seq<Inc>>, n': Node, k: int)
    requires TableAt(n, i, logs, k) && DeliveredOK(n, logs) && i < |logs| && at < |n.queued|
    requires n'.recv == n.recv && n'.delivered == n.delivered && n'.queued == n.queued[..at] + n.queued[at + 1..]
    ensures TableAt(n', i, logs[i := logs[i] + [n.queued[at].inc]], k)
  {
    hide Wrap;
    var logs' := logs[i := logs[i] + [n.queued[at].inc]];
    var last := |logs[i]|;
    var a, c := Applied(n, i, logs), Applied(n', i, logs');
    var one := map[i := Range(last, last)];
    NamedGrows(logs, a, i, n.queued[at].inc, k);
    assert Joined(a, one, c, |logs'|);
    JoinedSums(logs', a, one, c, k);
    NamedOne(logs', i, Range(last, last), |logs'|, k);
    assert Part(logs'[i], last, last + 1, k) == Term(logs'[i], last, k);
    QueuedRemove(n.queued, at, k);
  }

  lemma LogTable(n: Node, i: nat, at: nat, logs: seq<seq<Inc>>, n': Node)
    requires TableOK(n, i, logs) && DeliveredOK(n, logs) && i < |logs| && at < |n.queued|
    requires n'.recv == n.recv && n'.delivered == n.delivered && n'.queued == n.queued[..at] + n.queued[at + 1..]
    ensures TableOK(n', i, logs[i := logs[i] + [n.queued[at].inc]])
  {
    hide TableAt;
    var logs' := logs[i := logs[i] + [n.queued[at].inc]];
    forall k ensures TableAt(n', i, logs', k) {
      LogTableAt(n, i, at, logs, n', k);
    }
  }

  lemma LogOwnKeys(m: Table, log: seq<Messages.Inc>, r: Range, inc: Messages.Inc)
    requires OwnKeys(m, log, r) && r.st <= r.end + 1 == |log|
    ensures OwnKeys(AddAt(m, inc.key, inc.delta), log + [inc], Range(r.st, r.end + 1))
  {
    var log' := log + [inc];
    forall k | k in AddAt(m, inc.key, inc.delta)
      ensures exists q :: 0 <= q < |log'| && r.st <= q <= r.end + 1 && log'[q].key == k
    {
      if k == inc.key {
        assert log'[|log|].key == k;
      } else {
        var q :| 0 <= q < |log| && r.st <= q <= r.end && log[q].key == k;
        assert log'[q] == log[q];
      }
    }
  }

  lemma LogStore(p: P.State, i: nat, inc: Messages.Inc, logs: seq<seq<Inc>>, cuts: seq<set<int>>)
    requires StoreOK(p, i, logs, cuts) && OwnOK(p, i, logs) && i < |logs|
    ensures StoreOK(P.OnUpdateLog(p, inc), i, logs[i := logs[i] + [inc]], cuts)
    ensures OwnOK(P.OnUpdateLog(p, inc), i, logs[i := logs[i] + [inc]])
  {
    hide Holds, AddAt;
    var q := P.OnUpdateLog(p, inc);
    assert Lo(All(p, i), i) == p.ownRange.st && Hi(All(p, i), i) == p.ownRange.end + 1;
    assert All(q, i) == All(p, i)[i := Range(Lo(All(p, i), i), |logs[i]|)];
    HoldsLog(logs, i, inc, p.store, All(p, i), All(q, i));
    HoldsLog(logs, i, inc, p.own, map[i := p.ownRange], map[i := q.ownRange]);
    LogOwnKeys(p.own, logs[i], p.ownRange, inc);
    assert i in All(q, i) && !All(q, i)[i].Empty();
    forall o | 0 <= o < |logs| && o != i ensures Lo(All(q, i), o) == Lo(All(p, i), o) && Hi(All(q, i), o) == Hi(All(p, i), o) {}
  }

  lemma LogNode(n: Node, i: nat, at: nat, logs: seq<seq<Inc>>, cuts: seq<set<int>>, n': Node)
    requires NodeOK(n, i, logs, cuts) && i < |logs| && at < |n.queued| && n.prop.held.None?
    requires n' == n.(queued := n.queued[..at] + n.queued[at + 1..], prop := P.OnUpdateLog(n.prop, n.queued[at].inc))
    ensures NodeOK(n', i, logs[i := logs[i] + [n.queued[at].inc]], cuts)
    ensures forall o | 0 <= o < |logs| :: Sent(n'.prop, i, o) == Sent(n.prop, i, o)
  {
    hide Holds, Chain, TableOK;
    var logs' := logs[i := logs[i] + [n.queued[at].inc]];
    LogStore(n.prop, i, n.queued[at].inc, logs, cuts);
    LogTable(n, i, at, logs, n');
    ForwardGrows(n, i, logs, cuts, logs', cuts);
    ForwardSame(n, n', i, logs', cuts);
    QueueGrows(n, i, logs, cuts, logs', cuts);
    QueueSame(n, n', i, logs', cuts);
  }

  lemma LogKeeps(s: System, i: nat, at: nat)
    requires Inv(s) && i < Size(s)
    ensures DoLog(s, i, at).Next? ==> Inv(DoLog(s, i, at).s)
  {
    hide NodeOK, WireOK;
    if DoLog(s, i, at).Next? {
      var t := DoLog(s, i, at).s;
      LogNode(s.nodes[i], i, at, s.logs, s.cuts, t.nodes[i]);
      LocalStep(s, t, i, t.nodes[i]);
    }
  }

  // ---- Timer ----

  // A flush names exactly the ranges that are not empty.
  lemma FlushRanges(p: P.State, i: nat, logs: seq<seq<Inc>>, cuts: seq<set<int>>, ranges: map<int, Range>)
    requires StoreOK(p, i, logs, cuts) && i < |logs|
    requires ranges == if p.ownRange.Empty() then P.Pending(p.peers) else P.Pending(p.peers)[i := p.ownRange]
    ensures p.store != map[] ==> ranges != map[]
    ensures forall o | o in ranges :: 0 <= o < |logs| && 0 <= ranges[o].st <= ranges[o].end < |logs[o]|
    ensures forall o | o in ranges :: ranges[o].st == Lo(All(p, i), o) && ranges[o].end + 1 == Hi(All(p, i), o)
    ensures forall o | 0 <= o < |logs| && o !in ranges :: Lo(All(p, i), o) == Hi(All(p, i), o)
  {
    hide Holds;
    if p.store != map[] {
      var o :| o in All(p, i) && !All(p, i)[o].Empty();
      assert o in ranges;
    }
    forall o | o in ranges
      ensures 0 <= o < |logs| && 0 <= ranges[o].st <= ranges[o].end < |logs[o]|
      ensures ranges[o].st == Lo(All(p, i), o) && ranges[o].end + 1 == Hi(All(p, i), o)
    {
      assert o == i || o in p.peers;
      assert Hi(All(p, i), o) <= |logs[o]|;
    }
  }

  // Nothing is left.
  lemma FlushCursors(p: P.State, i: nat, logs: seq<seq<Inc>>, cuts: seq<set<int>>, q: P.State)
    requires StoreOK(p, i, logs, cuts) && i < |logs|
    requires q.ownRange == P.Emptied(p.ownRange) && q.peers == P.AllEmptied(p.peers)
    ensures forall o | 0 <= o < |logs| :: Hi(All(q, i), o) == Lo(All(q, i), o) == Hi(All(p, i), o)
  {
    hide Holds;
    forall o | 0 <= o < |logs| ensures Hi(All(q, i), o) == Lo(All(q, i), o) == Hi(All(p, i), o) {
      assert Lo(All(p, i), o) <= Hi(All(p, i), o);
    }
  }

  // What was pending started and ended at a cut, so what follows starts at one, if the own range that leaves is cut off too.
  lemma FlushLeaves(p: P.State, i: nat, logs: seq<seq<Inc>>, cuts: seq<set<int>>, q: P.State, cuts': seq<set<int>>)
    requires StoreOK(p, i, logs, cuts) && i < |logs| && CutsGrow(cuts, cuts')
    requires q.store == map[] && q.ownRange == P.Emptied(p.ownRange) && q.peers == P.AllEmptied(p.peers)
    requires p.ownRange.Empty() || (i < |cuts'| ==> p.ownRange.end + 1 in cuts'[i])
    ensures StoreOK(q, i, logs, cuts')
  {
    hide Holds;
    FlushCursors(p, i, logs, cuts, q);
    HoldsNothing(logs, All(q, i));
    assert Holds(q.store, logs, All(q, i));
    forall o | 0 <= o < |logs| ensures 0 <= Lo(All(q, i), o) <= Hi(All(q, i), o) <= |logs[o]| {
      assert 0 <= Lo(All(p, i), o) <= Hi(All(p, i), o) <= |logs[o]|;
    }
    assert Lo(All(p, i), i) == p.ownRange.st;
    forall o | o in All(q, i) && 0 <= o < |cuts'| ensures AtCut(All(q, i)[o].st, cuts'[o]) {
      assert o in All(p, i) && AtCut(All(p, i)[o].st, cuts[o]);
    }
  }

  // Everything the store covered is named by the buffer, and nothing is left.
  lemma FlushParts(p: P.State, i: nat, logs: seq<seq<Inc>>, cuts: seq<set<int>>, ranges: map<int, Range>, q: P.State)
    requires StoreOK(p, i, logs, cuts) && i < |logs| && p.store != map[]
    requires ranges == if p.ownRange.Empty() then P.Pending(p.peers) else P.Pending(p.peers)[i := p.ownRange]
    requires q.store == map[] && q.ownRange == P.Emptied(p.ownRange)
    requires q.peers == P.AllEmptied(p.peers)
    ensures Holds(p.store, logs, ranges) && ranges != map[]
    ensures forall o | o in ranges :: 0 <= o < |logs| && 0 <= ranges[o].st <= ranges[o].end < |logs[o]|
    ensures p.ownRange.Empty() ==> StoreOK(q, i, logs, cuts)
    ensures forall o | 0 <= o < |logs| :: Hi(All(q, i), o) == Lo(All(q, i), o) == Hi(All(p, i), o)
    ensures forall o | o in ranges :: ranges[o].st == Lo(All(p, i), o) && ranges[o].end + 1 == Hi(All(p, i), o)
    ensures forall o | 0 <= o < |logs| && o !in ranges :: Lo(All(p, i), o) == Hi(All(p, i), o)
  {
    hide Holds, P.Pending, P.AllEmptied;
    FlushRanges(p, i, logs, cuts, ranges);
    FlushCursors(p, i, logs, cuts, q);
    if p.ownRange.Empty() {
      FlushLeaves(p, i, logs, cuts, q, cuts);
    }
    HoldsSame(logs, p.store, All(p, i), ranges);
  }

  // The own batch joins the batches that have not come back.
  lemma FlushQueue(n: Node, i: nat, logs: seq<seq<Inc>>, cuts: seq<set<int>>, batch: Buffer, n': Node, cuts': seq<set<int>>)
    requires QueueOK(n, i, logs, cuts) && i < |n.delivered| == |logs| == |cuts| && IsBatch(batch, i, logs)
    requires batch.ranges[i].st == Lo(All(n.prop, i), i) && batch.ranges[i].end + 1 == Lo(All(n'.prop, i), i)
    requires n'.toReceiver == n.toReceiver + [batch] && n'.recv == n.recv && n'.delivered == n.delivered
    requires cuts' == cuts[i := cuts[i] + {batch.ranges[i].end + 1}]
    ensures QueueOK(n', i, logs, cuts')
  {
    assert Batches(n') == Batches(n) + [batch];
    ChainAppend(Batches(n), batch, i, n.delivered[i], Lo(All(n.prop, i), i));
    forall c | c in cuts'[i] && n.delivered[i] < c ensures EndsBatch(Batches(n'), i, c) {
      if c == batch.ranges[i].end + 1 {
        assert Batches(n')[|Batches(n)|] == batch;
      } else {
        assert EndsBatch(Batches(n), i, c);
        var j :| 0 <= j < |Batches(n)| && i in Batches(n)[j].ranges && Batches(n)[j].ranges[i].end + 1 == c;
        assert Batches(n')[j] == Batches(n)[j];
      }
    }
  }

  // The fatal branch is unreachable: own updates always come with an own range.
  lemma OwnIffRange(p: P.State, i: nat, logs: seq<seq<Inc>>, cuts: seq<set<int>>)
    requires StoreOK(p, i, logs, cuts) && OwnOK(p, i, logs) && i < |logs|
    ensures p.own == map[] <==> p.ownRange.Empty()
    ensures P.OnTimer(p, i).Ok?
  {
    assert Lo(All(p, i), i) == p.ownRange.st && Hi(All(p, i), i) == p.ownRange.end + 1 == |logs[i]|;
    if !p.ownRange.Empty() {
      assert logs[i][p.ownRange.st].key in p.own;
    }
  }

  lemma TimerSendsNode(n: Node, i: nat, logs: seq<seq<Inc>>, cuts: seq<set<int>>, q: P.State, b: Buffer)
    requires NodeOK(n, i, logs, cuts) && i < |logs| && n.prop.held.None? && P.OnTimer(n.prop, i) == Ok((q, P.SendNow(b)))
    ensures NodeOK(n.(prop := q), i, logs, cuts) && Whole(b, logs, cuts) && q.held.None?
    ensures forall o | o in b.ranges :: b.ranges[o].st == Lo(All(n.prop, i), o)
    ensures forall o | 0 <= o < |logs| :: Lo(All(q, i), o) == After(b, o, Lo(All(n.prop, i), o))
  {
    hide Holds, Chain;
    var n' := n.(prop := q);
    OwnIffRange(n.prop, i, logs, cuts);
    FlushParts(n.prop, i, logs, cuts, b.ranges, q);
    HoldsNothing(logs, map[i := q.ownRange]);
    assert forall o | o in b.ranges :: o in n.prop.peers;
    assert Lo(All(q, i), i) == Lo(All(n.prop, i), i);
    TableSame(n, n', i, logs);
    ForwardSame(n, n', i, logs, cuts);
    assert Batches(n') == Batches(n);
    QueueSame(n, n', i, logs, cuts);
  }

  // The propagator after a timer firing that has own updates to record first.
  ghost predicate Flushed(p: P.State, i: nat, ranges: map<int, Range>, q: P.State) {
    && ranges == P.Pending(p.peers)[i := p.ownRange] && q.held == Some(Buffer(p.store, ranges))
    && q.store == map[] && q.own == map[] && q.ownRange == P.Emptied(p.ownRange)
    && q.peers == P.AllEmptied(p.peers)
  }

  // A buffer with the own range starts and ends at cuts.
  lemma FlushedWhole(p: P.State, i: nat, logs: seq<seq<Inc>>, cuts: seq<set<int>>, ranges: map<int, Range>, cuts': seq<set<int>>)
    requires StoreOK(p, i, logs, cuts) && i < |logs| == |cuts| && p.store != map[] && !p.ownRange.Empty()
    requires ranges == P.Pending(p.peers)[i := p.ownRange] && cuts' == cuts[i := cuts[i] + {p.ownRange.end + 1}]
    ensures Whole(Buffer(p.store, ranges), logs, cuts')
  {
    hide Holds;
    FlushRanges(p, i, logs, cuts, ranges);
    HoldsSame(logs, p.store, All(p, i), ranges);
    forall o | o in ranges ensures AtCut(ranges[o].st, cuts'[o]) && ranges[o].end + 1 in cuts'[o] {
      assert o in All(p, i) && ranges[o] == All(p, i)[o];
    }
  }

  lemma FlushedProp(p: P.State, i: nat, logs: seq<seq<Inc>>, cuts: seq<set<int>>, ranges: map<int, Range>, q: P.State, cuts': seq<set<int>>)
    requires StoreOK(p, i, logs, cuts) && OwnOK(p, i, logs) && i < |logs| == |cuts| && p.held.None? && p.own != map[] && p.store != map[]
    requires Flushed(p, i, ranges, q) && cuts' == cuts[i := cuts[i] + {p.ownRange.end + 1}]
    ensures StoreOK(q, i, logs, cuts') && OwnOK(q, i, logs) && Whole(q.held.value, logs, cuts')
    ensures forall o | o in ranges :: ranges[o].end + 1 == Lo(All(q, i), o)
    ensures forall o | 0 <= o < |logs| :: Hi(All(q, i), o) == Hi(All(p, i), o)
    ensures forall o | 0 <= o < |logs| :: Sent(q, i, o) == Lo(All(p, i), o)
  {
    hide Holds, P.Pending, P.AllEmptied, StoreOK;
    OwnIffRange(p, i, logs, cuts);
    FlushParts(p, i, logs, cuts, ranges, q);
    FlushLeaves(p, i, logs, cuts, q, cuts');
    FlushedWhole(p, i, logs, cuts, ranges, cuts');
    HoldsNothing(logs, map[i := q.ownRange]);
  }

  lemma TimerHoldsNode(n: Node, i: nat, logs: seq<seq<Inc>>, cuts: seq<set<int>>, ranges: map<int, Range>, q: P.State,
                       n': Node, cuts': seq<set<int>>)
    requires NodeOK(n, i, logs, cuts) && i < |logs| && n.prop.held.None? && n.prop.own != map[] && n.prop.store != map[]
    requires Flushed(n.prop, i, ranges, q)
    requires n' == n.(prop := q, toReceiver := n.toReceiver + [Buffer(n.prop.own, map[i := n.prop.ownRange])])
    requires cuts' == cuts[i := cuts[i] + {n.prop.ownRange.end + 1}]
    ensures NodeOK(n', i, logs, cuts')
    ensures forall o | 0 <= o < |logs| :: Sent(q, i, o) == Lo(All(n.prop, i), o)
  {
    hide Holds, Whole, Chain, TableOK, StoreOK, OwnOK;
    FlushedProp(n.prop, i, logs, cuts, ranges, q, cuts');
    FlushQueueOf(n, i, logs, cuts, n', cuts');
    ForwardGrows(n, i, logs, cuts, logs, cuts');
    ForwardSame(n, n', i, logs, cuts');
    HeldAfterFlush(n', i, logs, cuts', q.held.value);
    TableSame(n, n', i, logs);
  }

  lemma FlushQueueOf(n: Node, i: nat, logs: seq<seq<Inc>>, cuts: seq<set<int>>, n': Node, cuts': seq<set<int>>)
    requires NodeOK(n, i, logs, cuts) && i < |logs| && n.prop.own != map[] && n'.prop.ownRange == P.Emptied(n.prop.ownRange)
    requires n'.toReceiver == n.toReceiver + [Buffer(n.prop.own, map[i := n.prop.ownRange])]
    requires n'.recv == n.recv && n'.delivered == n.delivered && cuts' == cuts[i := cuts[i] + {n.prop.ownRange.end + 1}]
    ensures QueueOK(n', i, logs, cuts')
  {
    assert Lo(All(n.prop, i), i) == n.prop.ownRange.st && Hi(All(n.prop, i), i) == n.prop.ownRange.end + 1;
    FlushQueue(n, i, logs, cuts, Buffer(n.prop.own, map[i := n.prop.ownRange]), n', cuts');
  }

  lemma HeldAfterFlush(n: Node, i: nat, logs: seq<seq<Inc>>, cuts: seq<set<int>>, b: Buffer)
    requires n.prop.held == Some(b) && |n.toReceiver| == 1 && n.acks == 0 && i in b.ranges
    requires n.toReceiver[0].ranges == map[i := b.ranges[i]]
    requires Whole(b, logs, cuts) && forall o | o in b.ranges :: b.ranges[o].end + 1 == Lo(All(n.prop, i), o)
    ensures HeldOK(n, i, logs, cuts)
  {}

  lemma TimerSends(s: System, i: nat, q: P.State, b: Buffer)
    requires Inv(s) && i < Size(s) && s.nodes[i].prop.held.None? && s.nodes[i].prop.store != map[]
    requires P.OnTimer(s.nodes[i].prop, i) == Ok((q, P.SendNow(b)))
    ensures DoTimer(s, i).Next? && Inv(DoTimer(s, i).s)
  {
    hide NodeOK, WireOK;
    TimerSendsNode(s.nodes[i], i, s.logs, s.cuts, q, b);
    SendingStep(s, DoTimer(s, i).s, i, s.nodes[i].(prop := q), b);
  }

  lemma TimerShape(p: P.State, i: nat, q: P.State, batch: Buffer, b: Buffer)
    requires P.OnTimer(p, i) == Ok((q, P.RecordFirst(batch, b)))
    ensures Flushed(p, i, b.ranges, q) && p.own != map[] && p.store != map[]
    ensures batch == Buffer(p.own, map[i := p.ownRange])
  {}

  lemma TimerHolds(s: System, i: nat, n': Node, ranges: map<int, Range>, t: System)
    requires Inv(s) && i < Size(s) && s.nodes[i].prop.held.None? && s.nodes[i].prop.own != map[] && s.nodes[i].prop.store != map[]
    requires Flushed(s.nodes[i].prop, i, ranges, n'.prop)
    requires n' == s.nodes[i].(prop := n'.prop,
                               toReceiver := s.nodes[i].toReceiver + [Buffer(s.nodes[i].prop.own, map[i := s.nodes[i].prop.ownRange])])
    requires t == WithNode(s, i, n').(cuts := s.cuts[i := s.cuts[i] + {s.nodes[i].prop.ownRange.end + 1}])
    ensures Inv(t)
  {
    hide NodeOK, WireOK;
    TimerHoldsNode(s.nodes[i], i, s.logs, s.cuts, ranges, n'.prop, n', t.cuts);
    CuttingStep(s, t, i, n');
  }

  // A step inside node i that cuts off an own batch.
  lemma CuttingStep(s: System, t: System, i: nat, n: Node)
    requires Inv(s) && i < Size(s) && t == WithNode(s, i, n).(cuts := t.cuts)
    requires |t.cuts| == |s.cuts| && s.cuts[i] <= t.cuts[i] && t.cuts == s.cuts[i := t.cuts[i]]
    requires NodeOK(n, i, t.logs, t.cuts) && n.delivered == s.nodes[i].delivered && s.nodes[i].prop.held.None?
    requires forall o | 0 <= o < Size(s) :: Sent(n.prop, i, o) == Lo(All(s.nodes[i].prop, i), o)
    ensures Inv(t)
  {
    hide NodeOK, WireOK;
    SentBefore(s, i);
    LocalStep(s, t, i, n);
  }

  lemma SentBefore(s: System, i: nat)
    requires i < Size(s) && s.nodes[i].prop.held.None?
    ensures forall o :: Sent(s.nodes[i].prop, i, o) == Lo(All(s.nodes[i].prop, i), o)
  {}

  lemma TimerNeverFatal(n: Node, i: nat, logs: seq<seq<Inc>>, cuts: seq<set<int>>)
    requires NodeOK(n, i, logs, cuts) && i < |logs|
    ensures P.OnTimer(n.prop, i).Ok?
  {
    OwnIffRange(n.prop, i, logs, cuts);
  }

  lemma TimerKeeps(s: System, i: nat)
    requires Inv(s) && i < Size(s)
    ensures !DoTimer(s, i).Abort?
    ensures DoTimer(s, i).Next? ==> Inv(DoTimer(s, i).s)
  {
    hide NodeOK, WireOK;
    var n := s.nodes[i];
    if n.prop.held.None? && n.prop.store != map[] {
      TimerNeverFatal(n, i, s.logs, s.cuts);
      var (q, flush) := P.OnTimer(n.prop, i).value;
      if flush.SendNow? {
        TimerSends(s, i, q, flush.buffer);
      } else if flush.RecordFirst? {
        TimerShape(n.prop, i, q, flush.batch, flush.buffer);
        TimerHolds(s, i, n.(prop := q, toReceiver := n.toReceiver + [flush.batch]), flush.buffer.ranges, DoTimer(s, i).s);
      }
    }
  }

  // ---- Record, Send ----

  lemma RecordNode(n: Node, i: nat, logs: seq<seq<Inc>>, cuts: seq<set<int>>, n': Node)
    requires NodeOK(n, i, logs, cuts) && n.toReceiver != []
    requires n' == n.(recv := R.OnMyUpdates(n.recv, n.toReceiver[0]), toReceiver := n.toReceiver[1..], acks := n.acks + 1)
    ensures NodeOK(n', i, logs, cuts)
  {
    assert Batches(n') == Batches(n);
    QueueSame(n, n', i, logs, cuts);
    TableSame(n, n', i, logs);
    ForwardSame(n, n', i, logs, cuts);
  }

  lemma RecordKeeps(s: System, i: nat)
    requires Inv(s) && i < Size(s)
    ensures DoRecord(s, i).Next? ==> Inv(DoRecord(s, i).s)
  {
    hide NodeOK, WireOK;
    if DoRecord(s, i).Next? {
      var t := DoRecord(s, i).s;
      RecordNode(s.nodes[i], i, s.logs, s.cuts, t.nodes[i]);
      LocalStep(s, t, i, t.nodes[i]);
    }
  }

  lemma SendNode(n: Node, i: nat, logs: seq<seq<Inc>>, cuts: seq<set<int>>, n': Node)
    requires NodeOK(n, i, logs, cuts) && n.prop.held.Some? && n.acks > 0
    requires n' == n.(prop := n.prop.(held := None), acks := n.acks - 1)
    ensures NodeOK(n', i, logs, cuts) && Whole(n.prop.held.value, logs, cuts)
    ensures forall o | 0 <= o < |logs| :: Lo(All(n'.prop, i), o) == After(n.prop.held.value, o, Sent(n.prop, i, o))
  {
    assert All(n'.prop, i) == All(n.prop, i);
    assert Batches(n') == Batches(n);
    QueueSame(n, n', i, logs, cuts);
    TableSame(n, n', i, logs);
    ForwardSame(n, n', i, logs, cuts);
  }

  lemma SendKeeps(s: System, i: nat)
    requires Inv(s) && i < Size(s)
    ensures DoSend(s, i).Next? ==> Inv(DoSend(s, i).s)
  {
    hide NodeOK, WireOK;
    if DoSend(s, i).Next? {
      var t := DoSend(s, i).s;
      SendNode(s.nodes[i], i, s.logs, s.cuts, t.nodes[i]);
      SendingStep(s, t, i, t.nodes[i], s.nodes[i].prop.held.value);
    }
  }

  // ---- Forward ----

  // The head of the forwarded buffers continues the ranges the propagator already holds, from 0 if it holds none.
  lemma ForwardContinues(n: Node, i: nat, logs: seq<seq<Inc>>, cuts: seq<set<int>>)
    requires NodeOK(n, i, logs, cuts) && i < |logs| && n.toProp != []
    ensures forall o | o in n.toProp[0].ranges :: n.toProp[0].ranges[o].st == Hi(All(n.prop, i), o) && o != i
    ensures P.Contiguous(n.prop.peers, n.toProp[0].ranges)
  {
    var b := n.toProp[0];
    assert b in n.toProp;
    forall o | o in b.ranges ensures b.ranges[o].st == Hi(All(n.prop, i), o) && o != i {
      assert Chain(n.toProp, o, Hi(All(n.prop, i), o), n.delivered[o]);
    }
  }

  lemma Someone(ranges: map<int, Range>) returns (o: int)
    requires ranges != map[]
    ensures o in ranges
  {
    if forall k :: k !in ranges {
      assert false;
    }
    o :| o in ranges;
  }

  lemma ForwardRanges(n: Node, i: nat, logs: seq<seq<Inc>>, cuts: seq<set<int>>, q: P.State)
    requires NodeOK(n, i, logs, cuts) && i < |logs| && n.toProp != []
    requires q.peers == P.Extend(n.prop.peers, n.toProp[0].ranges) && q.ownRange == n.prop.ownRange
    ensures Joined(All(n.prop, i), n.toProp[0].ranges, All(q, i), |logs|)
    ensures forall o | 0 <= o < |logs| :: Lo(All(q, i), o) == Lo(All(n.prop, i), o) <= Hi(All(n.prop, i), o)
    ensures forall o | 0 <= o < |logs| :: Hi(All(n.prop, i), o) <= Hi(All(q, i), o) == After(n.toProp[0], o, Hi(All(n.prop, i), o)) <= |logs[o]|
  {
    var b := n.toProp[0];
    assert b in n.toProp && Whole(b, logs, cuts);
    ForwardContinues(n, i, logs, cuts);
    forall o | 0 <= o < |logs|
      ensures JoinedAt(All(n.prop, i), b.ranges, All(q, i), o)
      ensures Lo(All(q, i), o) == Lo(All(n.prop, i), o) <= Hi(All(n.prop, i), o)
      ensures Hi(All(n.prop, i), o) <= Hi(All(q, i), o) == After(b, o, Hi(All(n.prop, i), o)) <= |logs[o]|
    {
      assert 0 <= Lo(All(n.prop, i), o) <= Hi(All(n.prop, i), o) <= |logs[o]|;
    }
  }

  lemma ForwardStore(n: Node, i: nat, logs: seq<seq<Inc>>, cuts: seq<set<int>>, q: P.State)
    requires NodeOK(n, i, logs, cuts) && i < |logs| && n.toProp != []
    requires q == n.prop.(store := AddAll(n.prop.store, n.toProp[0].updates), peers := P.Extend(n.prop.peers, n.toProp[0].ranges))
    ensures StoreOK(q, i, logs, cuts)
  {
    hide Holds, Chain, JoinedAt, AddAll;
    var b := n.toProp[0];
    assert b in n.toProp && Whole(b, logs, cuts);
    ForwardRanges(n, i, logs, cuts, q);
    HoldsAddAll(logs, n.prop.store, All(n.prop, i), b.updates, b.ranges, All(q, i));
    ForwardContinues(n, i, logs, cuts);
    var o := Someone(b.ranges);
    assert o in All(q, i) && !All(q, i)[o].Empty();
    assert i !in b.ranges;
  }

  lemma ForwardNode(n: Node, i: nat, logs: seq<seq<Inc>>, cuts: seq<set<int>>, n': Node)
    requires NodeOK(n, i, logs, cuts) && i < |logs| && n.toProp != [] && n.prop.held.None?
    requires P.OnUpdateBuffer(n.prop, n.toProp[0]).Ok?
    requires n' == n.(prop := P.OnUpdateBuffer(n.prop, n.toProp[0]).value, toProp := n.toProp[1..])
    ensures NodeOK(n', i, logs, cuts)
    ensures forall o | 0 <= o < |logs| :: Sent(n'.prop, i, o) == Sent(n.prop, i, o)
  {
    ForwardRanges(n, i, logs, cuts, n'.prop);
    ForwardStore(n, i, logs, cuts, n'.prop);
    TableSame(n, n', i, logs);
    assert Batches(n') == Batches(n);
    QueueSame(n, n', i, logs, cuts);
  }

  lemma ForwardKeeps(s: System, i: nat)
    requires Inv(s) && i < Size(s)
    ensures !DoForward(s, i).Abort?
    ensures DoForward(s, i).Next? ==> Inv(DoForward(s, i).s)
  {
    hide NodeOK, WireOK;
    var n := s.nodes[i];
    if n.toProp != [] && n.prop.held.None? {
      assert NodeOK(n, i, s.logs, s.cuts);
      ForwardContinues(n, i, s.logs, s.cuts);
      var t := DoForward(s, i).s;
      ForwardNode(n, i, s.logs, s.cuts, t.nodes[i]);
      LocalStep(s, t, i, t.nodes[i]);
    }
  }
}
