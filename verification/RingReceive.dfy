/** Receiving: own updates come back in whole batches, oldest first, and are cancelled exactly. */
module RingReceive {
  import opened Int32
  import opened Messages
  import opened Sums
  import opened Content
  import opened Ring
  import opened Invariant
  import RingSteps
  import P = PropagatorSpec
  import R = ReceiverSpec

  // ---- cursors only fall along the ring ----

  function Distance(n: nat, o: nat, j: nat): nat
    requires o < n && j < n
  {
    if o <= j then j - o else j + n - o
  }

  lemma SentFirst(n: Node, i: nat, o: nat, logs: seq<seq<Inc>>, cuts: seq<set<int>>)
    requires NodeOK(n, i, logs, cuts) && i < |logs| && o < |logs|
    ensures Sent(n.prop, i, o) <= Lo(All(n.prop, i), o) <= Hi(All(n.prop, i), o) <= |logs[o]|
    ensures o != i ==> Hi(All(n.prop, i), o) <= n.delivered[o]
  {
    assert 0 <= Lo(All(n.prop, i), o) <= Hi(All(n.prop, i), o);
    if o != i {
      ChainOrder(n.toProp, o, Hi(All(n.prop, i), o), n.delivered[o]);
    }
  }

  // No node has sent more of origin o's log than o itself.
  lemma {:induction false} OriginAhead(s: System, o: nat, j: nat)
    requires Inv(s) && o < Size(s) && j < Size(s)
    ensures Sent(s.nodes[j].prop, j, o) <= Sent(s.nodes[o].prop, o, o)
    decreases Distance(Size(s), o, j)
  {
    hide NodeOK;
    if j != o {
      var k := Pred(Size(s), j);
      SentFirst(s.nodes[j], j, o, s.logs, s.cuts);
      RingSteps.AtNode(s, j);
      ChainOrder(s.wires[j], o, s.nodes[j].delivered[o], Sent(s.nodes[k].prop, k, o));
      OriginAhead(s, o, k);
    }
  }

  // ---- cancelling ----

  ghost predicate AllBatches(batches: seq<Buffer>, i: int, logs: seq<seq<Inc>>) {
    forall b | b in batches :: IsBatch(b, i, logs)
  }

  lemma EndsTail(batches: seq<Buffer>, i: int, c: int)
    requires EndsBatch(batches, i, c) && |batches| > 0 && i in batches[0].ranges && batches[0].ranges[i].end + 1 != c
    ensures EndsBatch(batches[1..], i, c)
  {
    var j :| 0 <= j < |batches| && i in batches[j].ranges && batches[j].ranges[i].end + 1 == c;
    assert batches[1..][j - 1] == batches[j];
  }

  // What the remaining batches look like after cancelling up to `hi`.
  ghost predicate Remaining(before: seq<Buffer>, after: seq<Buffer>, i: int, hi: int, top: int) {
    && |after| < |before| && after == before[|before| - |after|..]
    && Chain(after, i, hi, top)
    && forall c | hi < c && EndsBatch(before, i, c) :: EndsBatch(after, i, c)
  }

  // A batch end before everything that is still coming is in the queue.
  lemma QueueHolds(queue: seq<Buffer>, coming: seq<Buffer>, i: int, c: int)
    requires EndsBatch(queue + coming, i, c)
    requires forall b | b in coming && i in b.ranges :: b.ranges[i].st >= c && b.ranges[i].st <= b.ranges[i].end
    ensures queue != []
  {
    var all := queue + coming;
    var j :| 0 <= j < |all| && i in all[j].ranges && all[j].ranges[i].end + 1 == c;
    assert all[j] !in coming;
  }

  // One turn of the cancelling loop whose checks pass.
  lemma CancelUnfolds(queue: seq<Buffer>, updates: Table, i: int, recv: Range, seqNum: int)
    requires queue != [] && i in queue[0].ranges && queue[0].updates.Keys <= updates.Keys
    requires recv.st <= queue[0].ranges[i].st == seqNum && queue[0].ranges[i].end <= recv.end
    ensures R.Cancel(queue, updates, i, recv, seqNum)
         == var rest := SubAll(updates, queue[0].updates);
            if queue[0].ranges[i].end == recv.end then Ok(R.Cancelled(queue[1..], rest))
            else R.Cancel(queue[1..], rest, i, recv, queue[0].ranges[i].end + 1)
  {}

  // Cancelling a returned range pops the batches that make it up and leaves what the other origins contributed.
  lemma {:induction false} CancelReturned(queue: seq<Buffer>, coming: seq<Buffer>, updates: Table, ranges: map<int, Range>,
                                          i: nat, recv: Range, logs: seq<seq<Inc>>, top: int)
    requires AllBatches(queue + coming, i, logs) && i < |logs| && i in ranges
    requires recv.st <= ranges[i].st && ranges[i].st <= recv.end == ranges[i].end
    requires Chain(queue + coming, i, ranges[i].st, top) && EndsBatch(queue + coming, i, recv.end + 1)
    requires forall b | b in coming && i in b.ranges :: b.ranges[i].st > recv.end
    requires Holds(updates, logs, ranges)
    ensures R.Cancel(queue, updates, i, recv, ranges[i].st).Ok?
    ensures var done := R.Cancel(queue, updates, i, recv, ranges[i].st).value;
            && Holds(done.updates, logs, ranges - {i})
            && |done.queue| < |queue| && done.queue == queue[|queue| - |done.queue|..]
            && Remaining(queue + coming, done.queue + coming, i, recv.end + 1, top)
    decreases |queue|
  {
    hide Holds, SubAll, EndsBatch, IsBatch, Remaining, R.Cancel;
    var all := queue + coming;
    CancelFirst(queue, coming, i, recv, ranges[i].st, logs, top);
    var front := queue[0];
    CancelFront(updates, ranges, front, i, logs);
    CancelUnfolds(queue, updates, i, recv, ranges[i].st);
    var rest := SubAll(updates, front.updates);
    if front.ranges[i].end == recv.end {
      CancelledAll(all, i, recv.end + 1, top);
      HoldsWithout(rest, ranges, i, front.ranges[i], logs);
    } else {
      var ranges' := ranges[i := Range(front.ranges[i].end + 1, recv.end)];
      EndsTail(all, i, recv.end + 1);
      CancelReturned(queue[1..], coming, rest, ranges', i, recv, logs, top);
      var done := R.Cancel(queue[1..], rest, i, recv, front.ranges[i].end + 1).value;
      assert ranges' - {i} == ranges - {i};
      RemainingLonger(all, done.queue + coming, i, recv.end + 1, top);
    }
  }

  // The queue's first batch passes the checks.
  lemma CancelFirst(queue: seq<Buffer>, coming: seq<Buffer>, i: nat, recv: Range, seqNum: int, logs: seq<seq<Inc>>, top: int)
    requires AllBatches(queue + coming, i, logs) && recv.st <= seqNum <= recv.end
    requires Chain(queue + coming, i, seqNum, top) && EndsBatch(queue + coming, i, recv.end + 1)
    requires forall b | b in coming && i in b.ranges :: b.ranges[i].st > recv.end
    ensures queue != [] && (queue + coming)[0] == queue[0] && (queue + coming)[1..] == queue[1..] + coming
    ensures IsBatch(queue[0], i, logs) && AllBatches(queue[1..] + coming, i, logs) && i in queue[0].ranges
    ensures queue[0].ranges[i].st == seqNum <= queue[0].ranges[i].end <= recv.end
    ensures Chain(queue[1..] + coming, i, queue[0].ranges[i].end + 1, top)
  {
    hide Holds, OwnKeys;
    var all := queue + coming;
    assert forall b | b in coming :: b in all;
    QueueHolds(queue, coming, i, recv.end + 1);
    assert all[0] == queue[0] && all[0] in all && all[1..] == queue[1..] + coming;
    FrontFits(all, i, recv.end + 1, seqNum, top);
    forall b | b in all[1..] ensures IsBatch(b, i, logs) {
      assert b in all;
    }
  }

  // The front batch starts where the cursor stands and ends no later than any marked batch end.
  lemma FrontFits(batches: seq<Buffer>, i: int, c: int, lo: int, top: int)
    requires |batches| > 0 && i in batches[0].ranges && Chain(batches, i, lo, top) && EndsBatch(batches, i, c)
    ensures batches[0].ranges[i].st == lo <= batches[0].ranges[i].end < c
  {
    var j :| 0 <= j < |batches| && i in batches[j].ranges && batches[j].ranges[i].end + 1 == c;
    if j > 0 {
      assert batches[1..][j - 1] == batches[j];
      ChainBounds(batches[1..], i, batches[0].ranges[i].end + 1, top, j - 1);
    }
  }

  lemma CancelledAll(batches: seq<Buffer>, i: int, hi: int, top: int)
    requires |batches| > 0 && i in batches[0].ranges && batches[0].ranges[i].end + 1 == hi
    requires Chain(batches[1..], i, hi, top)
    ensures Remaining(batches, batches[1..], i, hi, top)
  {
    forall c | hi < c && EndsBatch(batches, i, c) ensures EndsBatch(batches[1..], i, c) {
      EndsTail(batches, i, c);
    }
  }

  lemma RemainingLonger(batches: seq<Buffer>, after: seq<Buffer>, i: int, hi: int, top: int)
    requires |batches| > 0 && i in batches[0].ranges && batches[0].ranges[i].end + 1 < hi
    requires Remaining(batches[1..], after, i, hi, top)
    ensures Remaining(batches, after, i, hi, top)
  {
    forall c | hi < c && EndsBatch(batches, i, c) ensures EndsBatch(after, i, c) {
      EndsTail(batches, i, c);
    }
  }

  lemma HoldsWithout(updates: Table, ranges: map<int, Range>, i: int, last: Range, logs: seq<seq<Inc>>)
    requires i in ranges && last.end == ranges[i].end
    requires Holds(updates, logs, ranges[i := Range(last.end + 1, ranges[i].end)])
    ensures Holds(updates, logs, ranges - {i})
  {
    HoldsSame(logs, updates, ranges[i := Range(last.end + 1, ranges[i].end)], ranges - {i});
  }

  // Every own key is found in the buffer that comes back.
  lemma KeysInside(updates: Table, ranges: map<int, Range>, front: Buffer, i: nat, logs: seq<seq<Inc>>)
    requires Holds(updates, logs, ranges) && IsBatch(front, i, logs) && i in ranges
    requires ranges[i].st <= front.ranges[i].st && front.ranges[i].end <= ranges[i].end
    ensures front.updates.Keys <= updates.Keys
  {
    hide Sums.Named;
    forall k | k in front.updates ensures k in updates {
      var q :| 0 <= q < |logs[i]| && front.ranges[i].st <= q <= front.ranges[i].end && logs[i][q].key == k;
      assert Lo(ranges, i) <= q < Hi(ranges, i);
    }
  }

  lemma CancelFront(updates: Table, ranges: map<int, Range>, front: Buffer, i: nat, logs: seq<seq<Inc>>)
    requires Holds(updates, logs, ranges) && IsBatch(front, i, logs) && i in ranges
    requires front.ranges[i].st == ranges[i].st && front.ranges[i].end <= ranges[i].end
    ensures front.updates.Keys <= updates.Keys
    ensures Holds(SubAll(updates, front.updates), logs, ranges[i := Range(front.ranges[i].end + 1, ranges[i].end)])
  {
    KeysInside(updates, ranges, front, i, logs);
    assert Joined(front.ranges, ranges[i := Range(front.ranges[i].end + 1, ranges[i].end)], ranges, |logs|);
    HoldsSubAll(logs, updates, ranges, front.updates, front.ranges, ranges[i := Range(front.ranges[i].end + 1, ranges[i].end)]);
  }

  // ---- the step ----

  // The range that comes back is made of batches that are all in the receiver's queue already.
  lemma ReturnedInQueue(s: System, i: nat)
    requires Inv(s) && i < Size(s) && s.wires[i] != [] && i in s.wires[i][0].ranges
    ensures var r := s.wires[i][0].ranges[i]; var n := s.nodes[i];
            && r.st == n.delivered[i] <= r.end
            && EndsBatch(Batches(n), i, r.end + 1)
            && forall b | b in n.toReceiver && i in b.ranges :: b.ranges[i].st > r.end
  {
    hide Holds, StoreOK, OwnOK, ForwardOK, TableOK, IsBatch;
    var n, b, k := s.nodes[i], s.wires[i][0], Pred(Size(s), i);
    RingSteps.AtNode(s, i);
    assert WireOK(s.wires[i], s.nodes[k].prop, k, n.delivered, s.logs, s.cuts);
    assert b in s.wires[i];
    assert Chain(s.wires[i], i, n.delivered[i], Sent(s.nodes[k].prop, k, i));
    ChainBounds(s.wires[i], i, n.delivered[i], Sent(s.nodes[k].prop, k, i), 0);
    OriginAhead(s, i, k);
    if n.toReceiver != [] {
      assert n.toReceiver == [n.toReceiver[0]];
    }
  }

  lemma ReceiveTable(n: Node, i: nat, logs: seq<seq<Inc>>, updates: Table, ranges: map<int, Range>, n': Node)
    requires TableOK(n, i, logs) && DeliveredOK(n, logs) && i < |logs| && Holds(updates, logs, ranges) && i !in ranges
    requires forall o | o in ranges :: 0 <= o < |logs| && ranges[o].st == n.delivered[o] <= ranges[o].end + 1
    requires n'.recv.table == AddAll(n.recv.table, updates) && n'.queued == n.queued && |n'.delivered| == |n.delivered|
    requires forall o | 0 <= o < |logs| && o != i :: n'.delivered[o] == if o in ranges then ranges[o].end + 1 else n.delivered[o]
    ensures TableOK(n', i, logs)
  {
    hide TableAt, HoldsAt;
    var a, c := Applied(n, i, logs), Applied(n', i, logs);
    assert Joined(a, ranges, c, |logs|);
    forall k ensures TableAt(n', i, logs, k) {
      assert TableAt(n, i, logs, k) && HoldsAt(updates, logs, ranges, k);
      ReceiveTableAt(n, i, logs, updates, ranges, n', k);
    }
  }

  lemma ReceiveTableAt(n: Node, i: nat, logs: seq<seq<Inc>>, updates: Table, ranges: map<int, Range>, n': Node, k: int)
    requires TableAt(n, i, logs, k) && HoldsAt(updates, logs, ranges, k)
    requires Joined(Applied(n, i, logs), ranges, Applied(n', i, logs), |logs|)
    requires n'.recv.table == AddAll(n.recv.table, updates) && n'.queued == n.queued
    ensures TableAt(n', i, logs, k)
  {
    hide Wrap, VAdd, Applied;
    var a, c := Applied(n, i, logs), Applied(n', i, logs);
    AddAllGet(n.recv.table, updates, k);
    JoinedSums(logs, a, ranges, c, k);
    AddWraps(Named(logs, a, |logs|, k) + QueuedSum(n.queued, k), Named(logs, ranges, |logs|, k));
  }

  // The buffer at the head of node i's wire continues what node i has delivered.
  ghost predicate Continues(b: Buffer, n: Node) {
    forall o | o in b.ranges :: 0 <= o < |n.delivered| && b.ranges[o].st == n.delivered[o] <= b.ranges[o].end
  }

  lemma HeadContinues(s: System, i: nat)
    requires Inv(s) && i < Size(s) && s.wires[i] != []
    ensures Continues(s.wires[i][0], s.nodes[i]) && Whole(s.wires[i][0], s.logs, s.cuts)
  {
    hide NodeOK, Holds;
    var n, b, k := s.nodes[i], s.wires[i][0], Pred(Size(s), i);
    RingSteps.AtNode(s, i);
    assert WireOK(s.wires[i], s.nodes[k].prop, k, n.delivered, s.logs, s.cuts);
    assert b in s.wires[i];
    forall o | o in b.ranges ensures 0 <= o < |n.delivered| && b.ranges[o].st == n.delivered[o] <= b.ranges[o].end {
      assert Chain(s.wires[i], o, n.delivered[o], Sent(s.nodes[k].prop, k, o));
    }
  }

  lemma DeliverForward(n: Node, i: nat, logs: seq<seq<Inc>>, cuts: seq<set<int>>, b: Buffer, n': Node)
    requires ForwardOK(n, i, logs, cuts) && |n.delivered| == |logs| && Whole(b, logs, cuts) && Continues(b, n) && i !in b.ranges
    requires n'.prop == n.prop && n'.delivered == Delivered(n.delivered, b) && n'.toProp == n.toProp + [b]
    ensures ForwardOK(n', i, logs, cuts)
  {
    hide Whole;
    forall o | 0 <= o < |logs| && o != i
      ensures Chain(n'.toProp, o, Hi(All(n'.prop, i), o), n'.delivered[o])
    {
      ChainAppend(n.toProp, b, o, Hi(All(n.prop, i), o), n.delivered[o]);
    }
  }

  // Other origins' updates are applied and passed on.
  lemma DeliverNode(n: Node, i: nat, logs: seq<seq<Inc>>, cuts: seq<set<int>>, b: Buffer, n': Node)
    requires NodeOK(n, i, logs, cuts) && i < |logs| && Whole(b, logs, cuts) && Continues(b, n) && i !in b.ranges
    requires n' == n.(recv := R.Deliver(n.recv, b).state, delivered := Delivered(n.delivered, b), toProp := n.toProp + [b])
    ensures NodeOK(n', i, logs, cuts)
  {
    hide Holds, TableOK, StoreOK, OwnOK, QueueOK, ForwardOK;
    ReceiveTable(n, i, logs, b.updates, b.ranges, n');
    DeliverForward(n, i, logs, cuts, b, n');
    DeliverQueue(n, n', i, logs, cuts);
  }

  lemma DeliverQueue(n: Node, n': Node, i: int, logs: seq<seq<Inc>>, cuts: seq<set<int>>)
    requires QueueOK(n, i, logs, cuts) && Batches(n') == Batches(n) && n'.prop == n.prop
    requires |n'.delivered| == |n.delivered| && (0 <= i < |n.delivered| ==> n'.delivered[i] == n.delivered[i])
    ensures QueueOK(n', i, logs, cuts)
  {}

  lemma CancelFromQueue(n: Node, i: nat, logs: seq<seq<Inc>>, cuts: seq<set<int>>, b: Buffer)
    requires QueueOK(n, i, logs, cuts) && i < |logs| == |n.delivered| && Holds(b.updates, logs, b.ranges)
    requires i in b.ranges && Continues(b, n) && EndsBatch(Batches(n), i, b.ranges[i].end + 1)
    requires forall c | c in n.toReceiver && i in c.ranges :: c.ranges[i].st > b.ranges[i].end
    ensures var r := R.Cancel(n.recv.queue, b.updates, i, b.ranges[i], b.ranges[i].st);
            && r.Ok? && Holds(r.value.updates, logs, b.ranges - {i})
            && Remaining(Batches(n), r.value.queue + n.toReceiver, i, b.ranges[i].end + 1, Lo(All(n.prop, i), i))
  {
    hide Holds, EndsBatch, IsBatch;
    CancelReturned(n.recv.queue, n.toReceiver, b.updates, b.ranges, i, b.ranges[i], logs, Lo(All(n.prop, i), i));
  }

  // The own updates that come back are cancelled; nothing else changes.
  lemma CancelNode(n: Node, i: nat, logs: seq<seq<Inc>>, cuts: seq<set<int>>, b: Buffer, n': Node)
    requires NodeOK(n, i, logs, cuts) && i < |logs| && Whole(b, logs, cuts) && i in b.ranges && Continues(b, n)
    requires EndsBatch(Batches(n), i, b.ranges[i].end + 1)
    requires forall c | c in n.toReceiver && i in c.ranges :: c.ranges[i].st > b.ranges[i].end
    requires n' == n.(recv := n.recv.(queue := n'.recv.queue), delivered := n.delivered[i := b.ranges[i].end + 1])
    requires var r := R.Cancel(n.recv.queue, b.updates, i, b.ranges[i], b.ranges[i].st);
             r.Ok? ==> n'.recv.queue == r.value.queue
    ensures var r := R.Cancel(n.recv.queue, b.updates, i, b.ranges[i], b.ranges[i].st);
            r.Ok? && Holds(r.value.updates, logs, b.ranges - {i})
    ensures NodeOK(n', i, logs, cuts)
  {
    hide Holds, TableOK, StoreOK, OwnOK, QueueOK, EndsBatch, Remaining, R.Cancel, Chain;
    CancelFromQueue(n, i, logs, cuts, b);
    CancelQueue(n, i, logs, cuts, b.ranges[i].end + 1, n');
    CancelTable(n, n', i, logs);
  }

  lemma CancelTable(n: Node, n': Node, i: int, logs: seq<seq<Inc>>)
    requires TableOK(n, i, logs) && n'.recv.table == n.recv.table && n'.queued == n.queued
    requires |n'.delivered| == |n.delivered| && forall o | 0 <= o < |n.delivered| && o != i :: n'.delivered[o] == n.delivered[o]
    ensures TableOK(n', i, logs)
  {
    assert Applied(n', i, logs) == Applied(n, i, logs);
    forall k ensures TableAt(n', i, logs, k) {
      assert TableAt(n, i, logs, k);
    }
  }

  lemma CancelQueue(n: Node, i: nat, logs: seq<seq<Inc>>, cuts: seq<set<int>>, hi: int, n': Node)
    requires QueueOK(n, i, logs, cuts) && i < |n.delivered| == |n'.delivered| && n.delivered[i] < hi == n'.delivered[i]
    requires n'.prop == n.prop && n'.toReceiver == n.toReceiver
    requires Remaining(Batches(n), Batches(n'), i, hi, Lo(All(n.prop, i), i))
    ensures QueueOK(n', i, logs, cuts)
  {
    hide IsBatch;
    forall b | b in Batches(n') ensures IsBatch(b, i, logs) {
      assert b in Batches(n);
    }
    forall c | i < |cuts| && c in cuts[i] && hi < c ensures EndsBatch(Batches(n'), i, c) {
      assert EndsBatch(Batches(n), i, c);
    }
  }

  lemma ReceiveOwnNode(n: Node, i: nat, logs: seq<seq<Inc>>, cuts: seq<set<int>>, b: Buffer)
    requires NodeOK(n, i, logs, cuts) && i < |logs| == |n.delivered| && Whole(b, logs, cuts) && i in b.ranges && Continues(b, n)
    requires EndsBatch(Batches(n), i, b.ranges[i].end + 1)
    requires forall c | c in n.toReceiver && i in c.ranges :: c.ranges[i].st > b.ranges[i].end
    ensures R.OnUpdateBuffer(n.recv, i, b).Ok?
    ensures NodeOK(Received(n, b, R.OnUpdateBuffer(n.recv, i, b).value), i, logs, cuts)
  {
    hide NodeOK, Holds, EndsBatch, R.Cancel;
    var r := R.Cancel(n.recv.queue, b.updates, i, b.ranges[i], b.ranges[i].st);
    var queue := if r.Ok? then r.value.queue else n.recv.queue;
    var n1 := n.(recv := n.recv.(queue := queue), delivered := n.delivered[i := b.ranges[i].end + 1]);
    CancelNode(n, i, logs, cuts, b, n1);
    var n' := Received(n, b, R.OnUpdateBuffer(n.recv, i, b).value);
    var rest := Buffer(r.value.updates, b.ranges - {i});
    assert rest.ranges.Keys == b.ranges.Keys - {i};
    if rest.ranges == map[] {
      assert rest.ranges.Keys == {};
      assert forall o | o in b.ranges :: o in b.ranges.Keys && o !in b.ranges.Keys - {i};
      assert n'.delivered == n1.delivered;
    } else {
      assert Delivered(n1.delivered, rest) == Delivered(n.delivered, b);
      DeliverNode(n1, i, logs, cuts, rest, n');
    }
  }

  function Received(n: Node, b: Buffer, h: R.Handled): Node {
    n.(recv := h.state, delivered := Delivered(n.delivered, b),
       toProp := if h.forward.Some? then n.toProp + [h.forward.value] else n.toProp)
  }

  // Node i after the buffer at the head of its wire: no check fails, and the node's part of the invariant holds.
  lemma ReceiveNode(s: System, i: nat)
    requires Inv(s) && i < Size(s) && s.wires[i] != []
    ensures DoReceive(s, i, Repaired).Next?
    ensures NodeOK(DoReceive(s, i, Repaired).s.nodes[i], i, s.logs, s.cuts)
  {
    hide NodeOK, Holds, WireOK, EndsBatch, R.Cancel;
    var n, b := s.nodes[i], s.wires[i][0];
    HeadContinues(s, i);
    RingSteps.AtNode(s, i);
    if i in b.ranges {
      ReturnedInQueue(s, i);
      ReceiveOwnNode(n, i, s.logs, s.cuts, b);
    } else {
      DeliverNode(n, i, s.logs, s.cuts, b, DoReceive(s, i, Repaired).s.nodes[i]);
    }
  }

  lemma WireTail(wire: seq<Buffer>, p: P.State, k: int, delivered: seq<int>, logs: seq<seq<Inc>>, cuts: seq<set<int>>)
    requires WireOK(wire, p, k, delivered, logs, cuts) && wire != []
    ensures WireOK(wire[1..], p, k, Delivered(delivered, wire[0]), logs, cuts)
  {
    hide Whole;
    forall o | 0 <= o < |logs| && o < |delivered|
      ensures Chain(wire[1..], o, Delivered(delivered, wire[0])[o], Sent(p, k, o))
    {
      assert Delivered(delivered, wire[0])[o] == After(wire[0], o, delivered[o]);
    }
  }

  lemma ReceiveKeeps(s: System, i: nat)
    requires Inv(s) && i < Size(s)
    ensures !DoReceive(s, i, Repaired).Abort?
    ensures DoReceive(s, i, Repaired).Next? ==> Inv(DoReceive(s, i, Repaired).s)
  {
    hide NodeOK, WireOK, R.OnUpdateBuffer;
    if s.wires[i] != [] {
      var size := Size(s);
      ReceiveNode(s, i);
      var t := DoReceive(s, i, Repaired).s;
      forall j: nat | j < size
        ensures WireOK(t.wires[j], t.nodes[Pred(size, j)].prop, Pred(size, j), t.nodes[j].delivered, t.logs, t.cuts)
      {
        var k := Pred(size, j);
        assert t.nodes[k].prop == s.nodes[k].prop;
        assert WireOK(s.wires[j], s.nodes[k].prop, k, s.nodes[j].delivered, s.logs, s.cuts);
        if j == i {
          WireTail(s.wires[j], s.nodes[k].prop, k, s.nodes[j].delivered, s.logs, s.cuts);
        }
      }
    }
  }
}
