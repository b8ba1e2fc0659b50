/** Own batches in the running ring: the queue always matches what is in flight, and where the shipped receiver departs. */
module OwnBatches {
  import opened Messages
  import opened Content
  import opened Ring
  import opened Invariant
  import opened RingSteps
  import opened RingReceive
  import opened RingTheorems
  import Dedup
  import R = ReceiverSpec

  lemma {:induction false} BatchesInOrder(batches: seq<Buffer>, i: int, logs: seq<seq<Inc>>, lo: int, hi: int)
    requires AllBatches(batches, i, logs) && Chain(batches, i, lo, hi)
    ensures Dedup.Batched(batches, i) && Dedup.InOrder(batches, i) && Dedup.Concatenate(batches, i, lo, hi)
    decreases |batches|
  {
    hide Holds, OwnKeys;
    if batches != [] {
      assert batches[0] in batches;
      var tail := batches[1..];
      forall b | b in tail ensures IsBatch(b, i, logs) {
        assert b in batches;
      }
      BatchesInOrder(tail, i, logs, batches[0].ranges[i].end + 1, hi);
      assert Dedup.Batched(batches, i) by {
        forall j | 0 <= j < |batches| ensures i in batches[j].ranges && !batches[j].ranges[i].Empty() {
          assert batches[j] in batches;
        }
      }
      forall j | 0 <= j < |batches| - 1 ensures batches[j + 1].ranges[i].st == batches[j].ranges[i].end + 1 {
        if j > 0 {
          assert tail[j] == batches[j + 1] && tail[j - 1] == batches[j];
        } else if |tail| > 0 {
          assert tail[0] == batches[1];
        }
      }
    }
  }

  // The receiver's queue and the batches still coming to it are exactly the own batches that have not come back.
  lemma OwnQueue(s: System, i: nat)
    requires Inv(s) && i < Size(s)
    ensures i < |s.nodes[i].delivered| && Dedup.Batched(Batches(s.nodes[i]), i)
    ensures Dedup.Concatenate(Batches(s.nodes[i]), i, s.nodes[i].delivered[i], s.nodes[i].prop.ownRange.st)
  {
    hide StoreOK, OwnOK, HeldOK, ForwardOK, TableOK, WireOK;
    var n := s.nodes[i];
    assert NodeOK(n, i, s.logs, s.cuts);
    BatchesInOrder(Batches(n), i, s.logs, n.delivered[i], Lo(All(n.prop, i), i));
  }

  // One hop down the ring, no more has been delivered.
  lemma HopBehind(s: System, o: nat, j: nat)
    requires Inv(s) && o < Size(s) && j < Size(s) && Pred(Size(s), j) != o
    ensures |s.nodes[j].delivered| == |s.nodes[Pred(Size(s), j)].delivered| == Size(s)
    ensures s.nodes[j].delivered[o] <= s.nodes[Pred(Size(s), j)].delivered[o]
  {
    hide NodeOK;
    var k := Pred(Size(s), j);
    AtNode(s, j);
    AtNode(s, k);
    SentFirst(s.nodes[k], k, o, s.logs, s.cuts);
    assert WireOK(s.wires[j], s.nodes[k].prop, k, s.nodes[j].delivered, s.logs, s.cuts);
    ChainOrder(s.wires[j], o, s.nodes[j].delivered[o], Sent(s.nodes[k].prop, k, o));
  }

  // What has come back to origin o has been delivered everywhere.
  lemma {:induction false} OriginBehind(s: System, o: nat, j: nat)
    requires Inv(s) && o < Size(s) && j < Size(s)
    ensures |s.nodes[j].delivered| == |s.nodes[o].delivered| == Size(s)
    ensures s.nodes[o].delivered[o] <= s.nodes[j].delivered[o]
    decreases Distance(Size(s), j, o)
  {
    hide Inv;
    InvWellFormed(s);
    AtNode(s, j);
    AtNode(s, o);
    if j != o {
      HopBehind(s, o, Succ(Size(s), j));
      OriginBehind(s, o, Succ(Size(s), j));
    }
  }

  // An own range on a wire has been cut, sent by its origin and not come back.
  lemma OnWire(s: System, i: nat, j: nat, at: nat)
    requires Inv(s) && i < Size(s) && j < Size(s) && at < |s.wires[j]| && i in s.wires[j][at].ranges
    ensures var c := s.wires[j][at].ranges[i].end + 1;
            i < |s.nodes[i].delivered| && c in s.cuts[i] && s.nodes[i].delivered[i] < c <= Sent(s.nodes[i].prop, i, i)
  {
    hide NodeOK, Holds, Chain, Sent;
    var b, k := s.wires[j][at], Pred(Size(s), j);
    AtNode(s, i);
    AtNode(s, j);
    assert WireOK(s.wires[j], s.nodes[k].prop, k, s.nodes[j].delivered, s.logs, s.cuts);
    assert b in s.wires[j];
    ChainBounds(s.wires[j], i, s.nodes[j].delivered[i], Sent(s.nodes[k].prop, k, i), at);
    OriginAhead(s, i, k);
    OriginBehind(s, i, j);
  }

  // Record before send: wherever in the ring an own range is on a wire, the batch it ends with is already in the
  // receiver's queue.
  lemma RecordedBeforeSent(s: System, i: nat, j: nat, at: nat)
    requires Inv(s) && i < Size(s) && j < Size(s) && at < |s.wires[j]| && i in s.wires[j][at].ranges
    ensures EndsBatch(s.nodes[i].recv.queue, i, s.wires[j][at].ranges[i].end + 1)
  {
    hide NodeOK, WireOK;
    OnWire(s, i, j, at);
    AtNode(s, i);
    InQueue(s.nodes[i], i, s.logs, s.cuts, s.wires[j][at].ranges[i].end + 1);
  }

  // A cut that is sent and not yet back ends a batch in the queue itself.
  lemma InQueue(n: Node, i: nat, logs: seq<seq<Inc>>, cuts: seq<set<int>>, c: int)
    requires NodeOK(n, i, logs, cuts) && i < |logs| && c in cuts[i] && n.delivered[i] < c <= Sent(n.prop, i, i)
    ensures EndsBatch(n.recv.queue, i, c)
  {
    hide Holds, OwnKeys, StoreOK, OwnOK, ForwardOK, TableOK;
    assert EndsBatch(Batches(n), i, c);
    var at :| 0 <= at < |Batches(n)| && i in Batches(n)[at].ranges && Batches(n)[at].ranges[i].end + 1 == c;
    if n.toReceiver != [] {
      assert Batches(n)[|n.recv.queue|] == n.toReceiver[0];
    }
    assert at < |n.recv.queue|;
    assert n.recv.queue[at] == Batches(n)[at];
  }

  // When an own range comes back: the queue is not empty, its front starts at the received start and is contained, and
  // the range is made up of a prefix of the queue whose every key is in the buffer.
  lemma OwnRangeReturns(s: System, i: nat)
    requires Inv(s) && i < Size(s) && s.wires[i] != [] && i in s.wires[i][0].ranges
    ensures var queue, b := s.nodes[i].recv.queue, s.wires[i][0];
            && queue != [] && Dedup.Batched(queue, i) && Dedup.InOrder(queue, i)
            && queue[0].ranges[i].st == b.ranges[i].st && b.ranges[i].Contains(queue[0].ranges[i])
            && Dedup.Returned(queue, i, b)
  {
    hide NodeOK, Holds, IsBatch, WireOK, R.Cancel, Chain, EndsBatch, QueueOK, Remaining;
    var n, b := s.nodes[i], s.wires[i][0];
    AtNode(s, i);
    HeadContinues(s, i);
    ReturnedInQueue(s, i);
    QueuePart(n, i, s.logs, s.cuts);
    CancelFromQueue(n, i, s.logs, s.cuts, b);
    Dedup.FrontContained(n.recv.queue, b.updates, i, b.ranges[i], b.ranges[i].st);
    var m := Dedup.CancelNeeds(n.recv.queue, b.updates, i, b.ranges[i], b.ranges[i].st);
    assert n.recv.queue[..m][0] == n.recv.queue[0];
  }

  lemma QueuePart(n: Node, i: nat, logs: seq<seq<Inc>>, cuts: seq<set<int>>)
    requires NodeOK(n, i, logs, cuts) && i < |logs|
    ensures QueueOK(n, i, logs, cuts) && Dedup.Batched(n.recv.queue, i) && Dedup.InOrder(n.recv.queue, i)
  {
    hide Holds, OwnKeys, StoreOK, OwnOK, HeldOK, ForwardOK, TableOK;
    var all := Batches(n);
    BatchesInOrder(all, i, logs, n.delivered[i], Lo(All(n.prop, i), i));
    forall j | 0 <= j < |n.recv.queue| ensures n.recv.queue[j] == all[j] {}
    forall j | 0 <= j < |n.recv.queue| - 1
      ensures n.recv.queue[j + 1].ranges[i].st == n.recv.queue[j].ranges[i].end + 1
    {
      assert all[j + 1].ranges[i].st == all[j].ranges[i].end + 1;
    }
  }

  // The step shows everything the handler does.
  lemma ReceivedDetermines(n: Node, b: Buffer, g: R.Handled, h: R.Handled)
    requires Received(n, b, g) == Received(n, b, h)
    ensures g == h
  {
    var p, q := Received(n, b, g).toProp, Received(n, b, h).toProp;
    assert |p| == |n.toProp| + if g.forward.Some? then 1 else 0;
    assert |q| == |n.toProp| + if h.forward.Some? then 1 else 0;
    if g.forward.Some? {
      assert p[|n.toProp|] == g.forward.value && q[|n.toProp|] == h.forward.value;
    }
  }

  lemma ReceiveIsReceived(s: System, i: nat, v: Variant)
    requires WellFormed(s) && i < Size(s) && s.wires[i] != []
    ensures var r := if v == Repaired then R.OnUpdateBuffer(s.nodes[i].recv, i, s.wires[i][0])
                     else R.OnUpdateBufferShipped(s.nodes[i].recv, i, s.wires[i][0]);
            match DoReceive(s, i, v)
            case Next(t) => r.Ok? && t.nodes[i] == Received(s.nodes[i], s.wires[i][0], r.value) && t.nodes == s.nodes[i := t.nodes[i]]
                            && t.wires == s.wires[i := s.wires[i][1..]] && t.logs == s.logs && t.cuts == s.cuts
            case Abort(c) => r == Fatal(c)
            case Disabled => false
  {
    hide R.OnUpdateBuffer, R.OnUpdateBufferShipped;
  }

  lemma SameStep(s: System, i: nat)
    requires WellFormed(s) && i < Size(s) && s.wires[i] != []
    ensures Step(s, Receive(i), Shipped) == Step(s, Receive(i), Repaired)
       <==> R.OnUpdateBufferShipped(s.nodes[i].recv, i, s.wires[i][0]) == R.OnUpdateBuffer(s.nodes[i].recv, i, s.wires[i][0])
  {
    hide DoReceive, R.OnUpdateBuffer, R.OnUpdateBufferShipped, Received;
    ReceiveIsReceived(s, i, Shipped);
    ReceiveIsReceived(s, i, Repaired);
    var p, q := DoReceive(s, i, Shipped), DoReceive(s, i, Repaired);
    if p.Next? && q.Next? && p == q {
      ReceivedDetermines(s.nodes[i], s.wires[i][0], R.OnUpdateBufferShipped(s.nodes[i].recv, i, s.wires[i][0]).value,
                         R.OnUpdateBuffer(s.nodes[i].recv, i, s.wires[i][0]).value);
    }
  }

  // In every reachable state the shipped receiver does what the repaired one does exactly when the buffer at hand does not
  // name it, or names somebody else as well and carries exactly its oldest batch.
  lemma ShippedAgrees(s: System, i: nat)
    requires Inv(s) && i < Size(s) && s.wires[i] != []
    ensures var b, queue := s.wires[i][0], s.nodes[i].recv.queue;
            Step(s, Receive(i), Shipped) == Step(s, Receive(i), Repaired)
            <==> i !in b.ranges || (b.ranges - {i} != map[] && queue != [] && i in queue[0].ranges && queue[0].ranges[i] == b.ranges[i])
  {
    hide NodeOK, WireOK, Step, R.OnUpdateBuffer, R.OnUpdateBufferShipped;
    var n, b := s.nodes[i], s.wires[i][0];
    AtNode(s, i);
    QueuePart(n, i, s.logs, s.cuts);
    if i in b.ranges {
      OwnRangeReturns(s, i);
    }
    Dedup.ShippedReceiver(n.recv, i, b);
    SameStep(s, i);
  }

  // At every receive of this run the buffer does not name its receiver, or names somebody else as well and carries exactly
  // the receiver's oldest batch.
  ghost predicate OneBatchEach(s: System, actions: seq<Action>)
    requires WellFormed(s)
    decreases |actions|
  {
    actions != [] ==>
      var a := actions[0];
      && (a.Receive? && a.i < Size(s) && s.wires[a.i] != [] ==>
            var b, queue := s.wires[a.i][0], s.nodes[a.i].recv.queue;
            a.i !in b.ranges || (b.ranges - {a.i} != map[] && queue != [] && a.i in queue[0].ranges && queue[0].ranges[a.i] == b.ranges[a.i]))
      && (Step(s, a, Repaired).Next? ==> OneBatchEach(Step(s, a, Repaired).s, actions[1..]))
  }

  // On such a run, from any reachable state, the shipped receivers do the same as the repaired ones.
  lemma {:induction false} ShippedRunAgrees(s: System, actions: seq<Action>)
    requires Inv(s) && OneBatchEach(s, actions)
    ensures Run(s, actions, Shipped) == Run(s, actions, Repaired)
    decreases |actions|
  {
    hide Inv, Step;
    InvWellFormed(s);
    if actions != [] {
      var a := actions[0];
      StepKeeps(s, a);
      if a.Receive? && a.i < Size(s) && s.wires[a.i] != [] {
        ShippedAgrees(s, a.i);
      } else {
        SameUnlessReceive(s, a);
      }
      if Step(s, a, Repaired).Next? {
        ShippedRunAgrees(Step(s, a, Repaired).s, actions[1..]);
      }
    }
  }

  lemma SameUnlessReceive(s: System, a: Action)
    requires WellFormed(s) && !(a.Receive? && a.i < Size(s) && s.wires[a.i] != [])
    ensures Step(s, a, Shipped) == Step(s, a, Repaired)
  {
    hide DoInc, DoLog, DoTimer, DoRecord, DoSend, DoForward;
  }
}
