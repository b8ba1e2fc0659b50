/** What every buffer and every store in the ring holds, and why a buffer that names only its receiver can be dropped. */
module Meaning {
  import opened Int32
  import opened Messages
  import opened Sums
  import opened Content
  import opened Ring
  import opened Invariant
  import opened RingSteps
  import opened RingReceive
  import OwnBatches
  import P = PropagatorSpec
  import R = ReceiverSpec

  // A buffer under way names at least one range, each a whole number of its origin's batches: it starts where the log or a
  // batch starts and ends where a batch ends. And it holds for every key the
  // sum of exactly the logged deltas its ranges name.
  ghost predicate Means(b: Buffer, s: System) {
    && b.ranges != map[]
    && (forall o | o in b.ranges ::
          && 0 <= o < |s.logs| == |s.cuts| && 0 <= b.ranges[o].st <= b.ranges[o].end < |s.logs[o]|
          && AtCut(b.ranges[o].st, s.cuts[o]) && b.ranges[o].end + 1 in s.cuts[o])
    && (forall k :: Get(b.updates, k) == Wrap(Named(s.logs, b.ranges, |s.logs|, k)))
  }

  lemma WholeMeans(b: Buffer, s: System)
    requires WellFormed(s) && Whole(b, s.logs, s.cuts)
    ensures Means(b, s)
  {
    forall k ensures Get(b.updates, k) == Wrap(Named(s.logs, b.ranges, |s.logs|, k)) {
      assert HoldsAt(b.updates, s.logs, b.ranges, k);
    }
  }

  // In every reachable state this is so of every buffer on a wire, on its way to a propagator, or held by one.
  lemma BuffersMean(s: System, i: nat)
    requires Inv(s) && i < Size(s)
    ensures forall b | b in s.wires[i] :: Means(b, s)
    ensures forall b | b in s.nodes[i].toProp :: Means(b, s)
    ensures s.nodes[i].prop.held.Some? ==> Means(s.nodes[i].prop.held.value, s)
  {
    hide Whole, Means;
    assert NodeOK(s.nodes[i], i, s.logs, s.cuts);
    var k := Pred(Size(s), i);
    assert WireOK(s.wires[i], s.nodes[k].prop, k, s.nodes[i].delivered, s.logs, s.cuts);
    forall b | b in s.wires[i] || b in s.nodes[i].toProp || s.nodes[i].prop.held == Some(b) ensures Means(b, s) {
      WholeMeans(b, s);
    }
  }

  // A store holds the sum of the deltas its own and its peers' ranges name; own updates are there exactly when the own range
  // is not empty, under keys of the store; the node is never its own peer; and what is not empty has a range.
  lemma StoreMeans(s: System, i: nat, k: int)
    requires Inv(s) && i < Size(s)
    ensures var p := s.nodes[i].prop;
            && Get(p.store, k) == Wrap(Named(s.logs, All(p, i), |s.logs|, k))
            && Get(p.own, k) == Wrap(Named(s.logs, map[i := p.ownRange], |s.logs|, k))
            && (p.own == map[] <==> p.ownRange.Empty()) && p.own.Keys <= p.store.Keys && i !in p.peers
            && (p.store != map[] ==> exists o :: o in All(p, i) && !All(p, i)[o].Empty())
  {
    hide HeldOK, ForwardOK, QueueOK, TableOK;
    var p := s.nodes[i].prop;
    assert NodeOK(s.nodes[i], i, s.logs, s.cuts);
    assert HoldsAt(p.store, s.logs, All(p, i), k) && HoldsAt(p.own, s.logs, map[i := p.ownRange], k);
    OwnIffRange(p, i, s.logs, s.cuts);
    OwnKeysStored(p, i, s.logs, s.cuts);
  }

  lemma OwnKeysStored(p: P.State, i: nat, logs: seq<seq<Inc>>, cuts: seq<set<int>>)
    requires StoreOK(p, i, logs, cuts) && OwnOK(p, i, logs) && i < |logs|
    ensures p.own.Keys <= p.store.Keys
  {
    hide HoldsAt;
    forall k | k in p.own ensures k in p.store {
      var q :| 0 <= q < |logs[i]| && p.ownRange.st <= q <= p.ownRange.end && logs[i][q].key == k;
      assert Lo(All(p, i), i) <= q < Hi(All(p, i), i);
    }
  }

  // When a buffer comes back that names nobody but its receiver, subtracting the queued batches leaves zero at every key:
  // dropping it loses nothing.
  lemma ResidueIsZero(s: System, i: nat, k: int)
    requires Inv(s) && i < Size(s) && s.wires[i] != [] && s.wires[i][0].ranges.Keys == {i}
    ensures var n, b := s.nodes[i], s.wires[i][0];
            var r := R.Cancel(n.recv.queue, b.updates, i, b.ranges[i], b.ranges[i].st);
            && r.Ok? && Get(r.value.updates, k) == 0
            && R.OnUpdateBuffer(n.recv, i, b) == Ok(R.Handled(n.recv.(queue := r.value.queue), None))
  {
    hide NodeOK, R.Cancel, Chain, Remaining, EndsBatch, Holds, QueueOK, WireOK;
    var n, b := s.nodes[i], s.wires[i][0];
    AtNode(s, i);
    HeadContinues(s, i);
    ReturnedInQueue(s, i);
    OwnBatches.QueuePart(n, i, s.logs, s.cuts);
    CancelFromQueue(n, i, s.logs, s.cuts, b);
    var r := R.Cancel(n.recv.queue, b.updates, i, b.ranges[i], b.ranges[i].st);
    assert b.ranges - {i} == map[];
    HoldsNone(r.value.updates, s.logs, k);
  }

  lemma HoldsNone(m: Table, logs: seq<seq<Inc>>, k: int)
    requires Holds(m, logs, map[])
    ensures Get(m, k) == 0
  {
    assert HoldsAt(m, logs, map[], k);
    NamedNothing(logs, map[], |logs|, k);
  }
}
