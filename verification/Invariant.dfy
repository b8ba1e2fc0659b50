/** The ring's invariant. Each origin's log is cut by cursors that move along the ring: what a node has delivered,
    absorbed, flushed and sent; each channel carries exactly the stretch between the cursors at its two ends. */
module Invariant {
  import opened Int32
  import opened Messages
  import opened Sums
  import opened Content
  import opened Ring
  import P = PropagatorSpec

  // The ranges a propagator's store covers: its peers' and its own.
  function All(p: P.State, i: int): map<int, Range> {
    p.peers[i := p.ownRange]
  }

  // How far origin o's updates have left node i: the held buffer is not sent yet.
  function Sent(p: P.State, i: int, o: int): int {
    if p.held.Some? && o in p.held.value.ranges then p.held.value.ranges[o].st else Lo(All(p, i), o)
  }

  // Reading `b` from cursor `lo` leads to this cursor.
  function After(b: Buffer, o: int, lo: int): int {
    if o in b.ranges then b.ranges[o].end + 1 else lo
  }

  // Oldest first, the buffers' ranges for origin o are contiguous and not empty, and run from lo to hi.
  ghost predicate Chain(buffers: seq<Buffer>, o: int, lo: int, hi: int) {
    if buffers == [] then lo == hi
    else
      var b := buffers[0];
      (o in b.ranges ==> b.ranges[o].st == lo <= b.ranges[o].end) && Chain(buffers[1..], o, After(b, o, lo), hi)
  }

  // A batch may start here: at the log's beginning or where the batch before ended.
  predicate AtCut(st: int, cuts: set<int>) {
    st == 0 || st in cuts
  }

  ghost predicate Whole(b: Buffer, logs: seq<seq<Inc>>, cuts: seq<set<int>>) {
    && b.ranges != map[]
    && (forall o | o in b.ranges :: 0 <= o < |logs| && 0 <= b.ranges[o].st <= b.ranges[o].end < |logs[o]|)
    && (forall o | o in b.ranges && 0 <= o < |cuts| :: AtCut(b.ranges[o].st, cuts[o]) && b.ranges[o].end + 1 in cuts[o])
    && Holds(b.updates, logs, b.ranges)
  }

  // Every key of `m` was logged in the range.
  ghost predicate OwnKeys(m: Table, log: seq<Inc>, r: Range) {
    forall k | k in m :: exists q :: 0 <= q < |log| && r.st <= q <= r.end && log[q].key == k
  }

  // An own batch of node i names node i only.
  ghost predicate IsBatch(b: Buffer, i: int, logs: seq<seq<Inc>>) {
    && i in b.ranges && b.ranges == map[i := b.ranges[i]]
    && 0 <= i < |logs| && 0 <= b.ranges[i].st <= b.ranges[i].end < |logs[i]|
    && Holds(b.updates, logs, b.ranges) && OwnKeys(b.updates, logs[i], b.ranges[i])
  }

  ghost predicate StoreOK(p: P.State, i: int, logs: seq<seq<Inc>>, cuts: seq<set<int>>) {
    && i !in p.peers
    && (forall o | o in p.peers :: 0 <= o < |logs| && (o < |cuts| ==> p.peers[o].end + 1 in cuts[o]))
    && (forall o | o in All(p, i) && 0 <= o < |cuts| :: AtCut(All(p, i)[o].st, cuts[o]))
    && (forall o | 0 <= o < |logs| :: 0 <= Lo(All(p, i), o) <= Hi(All(p, i), o) <= |logs[o]|)
    && (0 <= i < |logs| ==> Hi(All(p, i), i) == |logs[i]|)
    && Holds(p.store, logs, All(p, i))
    && (p.store != map[] ==> exists o :: o in All(p, i) && !All(p, i)[o].Empty())
  }

  ghost predicate OwnOK(p: P.State, i: int, logs: seq<seq<Inc>>) {
    && Holds(p.own, logs, map[i := p.ownRange]) && (p.own != map[] ==> !p.ownRange.Empty())
    && (0 <= i < |logs| ==> OwnKeys(p.own, logs[i], p.ownRange))
  }

  ghost predicate HeldOK(n: Node, i: int, logs: seq<seq<Inc>>, cuts: seq<set<int>>) {
    match n.prop.held
    case None => n.toReceiver == [] && n.acks == 0
    case Some(b) =>
      && Whole(b, logs, cuts) && i in b.ranges
      && (forall o | o in b.ranges :: b.ranges[o].end + 1 == Lo(All(n.prop, i), o))
      && |n.toReceiver| + n.acks == 1
      && (n.toReceiver != [] ==> n.toReceiver[0].ranges == map[i := b.ranges[i]])
  }

  ghost predicate ForwardOK(n: Node, i: int, logs: seq<seq<Inc>>, cuts: seq<set<int>>) {
    && (forall b | b in n.toProp :: Whole(b, logs, cuts) && i !in b.ranges)
    && (forall o | 0 <= o < |logs| && o != i && o < |n.delivered| ::
          Chain(n.toProp, o, Hi(All(n.prop, i), o), n.delivered[o]))
  }

  // Own batches on their way to the receiver's queue, and in it, oldest first.
  function Batches(n: Node): seq<Buffer> {
    n.recv.queue + n.toReceiver
  }

  ghost predicate EndsBatch(batches: seq<Buffer>, i: int, c: int) {
    exists j :: 0 <= j < |batches| && i in batches[j].ranges && batches[j].ranges[i].end + 1 == c
  }

  // The own-batch queue is exactly the own batches that have not come back.
  ghost predicate QueueOK(n: Node, i: int, logs: seq<seq<Inc>>, cuts: seq<set<int>>) {
    && (forall b | b in Batches(n) :: IsBatch(b, i, logs))
    && (0 <= i < |n.delivered| ==> Chain(Batches(n), i, n.delivered[i], Lo(All(n.prop, i), i)))
    && (forall c | 0 <= i < |cuts| && 0 <= i < |n.delivered| && c in cuts[i] && n.delivered[i] < c :: EndsBatch(Batches(n), i, c))
  }

  function QueuedSum(queued: seq<Queued>, k: int): int {
    if queued == [] then 0
    else QueuedSum(queued[..|queued| - 1], k) + (if queued[|queued| - 1].inc.key == k then queued[|queued| - 1].inc.delta else 0)
  }

  // What node i's table accounts for: all of its own log, and of every other origin's log what has been delivered.
  function Applied(n: Node, i: int, logs: seq<seq<Inc>>): map<int, Range> {
    map o | 0 <= o < |logs| :: Range(0, (if o == i then |logs[o]| else if o < |n.delivered| then n.delivered[o] else 0) - 1)
  }

  ghost predicate TableAt(n: Node, i: int, logs: seq<seq<Inc>>, k: int) {
    Get(n.recv.table, k) == Wrap(Named(logs, Applied(n, i, logs), |logs|, k) + QueuedSum(n.queued, k))
  }

  ghost predicate TableOK(n: Node, i: int, logs: seq<seq<Inc>>) {
    forall k :: TableAt(n, i, logs, k)
  }

  ghost predicate DeliveredOK(n: Node, logs: seq<seq<Inc>>) {
    |n.delivered| == |logs| && forall o | 0 <= o < |logs| :: 0 <= n.delivered[o] <= |logs[o]|
  }

  ghost predicate NodeOK(n: Node, i: int, logs: seq<seq<Inc>>, cuts: seq<set<int>>) {
    && |cuts| == |logs|
    && DeliveredOK(n, logs)
    && StoreOK(n.prop, i, logs, cuts)
    && OwnOK(n.prop, i, logs)
    && HeldOK(n, i, logs, cuts)
    && ForwardOK(n, i, logs, cuts)
    && QueueOK(n, i, logs, cuts)
    && TableOK(n, i, logs)
  }

  // The wire from node j into a node that has delivered `delivered`.
  ghost predicate WireOK(wire: seq<Buffer>, p: P.State, j: int, delivered: seq<int>, logs: seq<seq<Inc>>, cuts: seq<set<int>>) {
    && (forall b | b in wire :: Whole(b, logs, cuts))
    && (forall o | 0 <= o < |logs| && o < |delivered| :: Chain(wire, o, delivered[o], Sent(p, j, o)))
  }

  ghost predicate Inv(s: System) {
    && WellFormed(s)
    && (forall i: nat | i < Size(s) :: NodeOK(s.nodes[i], i, s.logs, s.cuts))
    && (forall i: nat | i < Size(s) ::
          WireOK(s.wires[i], s.nodes[Pred(Size(s), i)].prop, Pred(Size(s), i), s.nodes[i].delivered, s.logs, s.cuts))
  }

  // ---- chains ----

  lemma {:induction false} ChainOrder(buffers: seq<Buffer>, o: int, lo: int, hi: int)
    requires Chain(buffers, o, lo, hi)
    ensures lo <= hi
    decreases |buffers|
  {
    if buffers != [] {
      ChainOrder(buffers[1..], o, After(buffers[0], o, lo), hi);
    }
  }

  lemma {:induction false} ChainAppend(buffers: seq<Buffer>, b: Buffer, o: int, lo: int, mid: int)
    requires Chain(buffers, o, lo, mid)
    requires o in b.ranges ==> b.ranges[o].st == mid <= b.ranges[o].end
    ensures Chain(buffers + [b], o, lo, After(b, o, mid))
    decreases |buffers|
  {
    if buffers == [] {
      assert (buffers + [b])[1..] == [];
    } else {
      ChainAppend(buffers[1..], b, o, After(buffers[0], o, lo), mid);
      assert (buffers + [b])[1..] == buffers[1..] + [b];
    }
  }

  // Every range in a chain lies between its ends.
  lemma {:induction false} ChainBounds(buffers: seq<Buffer>, o: int, lo: int, hi: int, j: nat)
    requires Chain(buffers, o, lo, hi) && j < |buffers| && o in buffers[j].ranges
    ensures lo <= buffers[j].ranges[o].st <= buffers[j].ranges[o].end < hi
    decreases |buffers|
  {
    var b := buffers[0];
    ChainOrder(buffers[1..], o, After(b, o, lo), hi);
    if j > 0 {
      ChainBounds(buffers[1..], o, After(b, o, lo), hi, j - 1);
    }
  }

  // ---- growing logs and cuts keep what does not depend on the newest entries ----

  ghost predicate CutsGrow(cuts: seq<set<int>>, cuts': seq<set<int>>) {
    |cuts| == |cuts'| && forall o | 0 <= o < |cuts| :: cuts[o] <= cuts'[o]
  }

  lemma WholeGrows(b: Buffer, logs: seq<seq<Inc>>, cuts: seq<set<int>>, logs': seq<seq<Inc>>, cuts': seq<set<int>>)
    requires Whole(b, logs, cuts) && Extends(logs, logs') && CutsGrow(cuts, cuts')
    ensures Whole(b, logs', cuts')
  {
    HoldsGrows(b.updates, logs, logs', b.ranges);
  }

  lemma WireGrows(wire: seq<Buffer>, p: P.State, j: int, delivered: seq<int>,
                  logs: seq<seq<Inc>>, cuts: seq<set<int>>, logs': seq<seq<Inc>>, cuts': seq<set<int>>)
    requires WireOK(wire, p, j, delivered, logs, cuts) && Extends(logs, logs') && CutsGrow(cuts, cuts')
    ensures WireOK(wire, p, j, delivered, logs', cuts')
  {
    forall b | b in wire ensures Whole(b, logs', cuts') {
      WholeGrows(b, logs, cuts, logs', cuts');
    }
  }

  lemma HeldGrows(n: Node, i: int, logs: seq<seq<Inc>>, cuts: seq<set<int>>, logs': seq<seq<Inc>>, cuts': seq<set<int>>)
    requires HeldOK(n, i, logs, cuts) && Extends(logs, logs') && CutsGrow(cuts, cuts')
    ensures HeldOK(n, i, logs', cuts')
  {
    if n.prop.held.Some? {
      WholeGrows(n.prop.held.value, logs, cuts, logs', cuts');
    }
  }

  lemma ForwardGrows(n: Node, i: int, logs: seq<seq<Inc>>, cuts: seq<set<int>>, logs': seq<seq<Inc>>, cuts': seq<set<int>>)
    requires ForwardOK(n, i, logs, cuts) && Extends(logs, logs') && CutsGrow(cuts, cuts')
    ensures ForwardOK(n, i, logs', cuts')
  {
    forall b | b in n.toProp ensures Whole(b, logs', cuts') && i !in b.ranges {
      WholeGrows(b, logs, cuts, logs', cuts');
    }
  }

  lemma OwnKeysGrow(m: Table, log: seq<Inc>, log': seq<Inc>, r: Range)
    requires OwnKeys(m, log, r) && log <= log'
    ensures OwnKeys(m, log', r)
  {
    forall k | k in m ensures exists q :: 0 <= q < |log'| && r.st <= q <= r.end && log'[q].key == k {
      var q :| 0 <= q < |log| && r.st <= q <= r.end && log[q].key == k;
      assert log'[q] == log[q];
    }
  }

  lemma QueueGrows(n: Node, i: int, logs: seq<seq<Inc>>, cuts: seq<set<int>>, logs': seq<seq<Inc>>, cuts': seq<set<int>>)
    requires QueueOK(n, i, logs, cuts) && Extends(logs, logs') && |cuts| == |cuts'| && (0 <= i < |cuts| ==> cuts[i] == cuts'[i])
    ensures QueueOK(n, i, logs', cuts')
  {
    forall b | b in Batches(n) ensures IsBatch(b, i, logs') {
      HoldsGrows(b.updates, logs, logs', b.ranges);
      OwnKeysGrow(b.updates, logs[i], logs'[i], b.ranges[i]);
    }
  }

  lemma TableGrows(n: Node, i: int, logs: seq<seq<Inc>>, logs': seq<seq<Inc>>)
    requires TableOK(n, i, logs) && DeliveredOK(n, logs) && Extends(logs, logs') && 0 <= i < |logs| && logs[i] == logs'[i]
    ensures TableOK(n, i, logs')
  {
    forall k ensures TableAt(n, i, logs', k) {
      assert TableAt(n, i, logs, k);
      var a, b := Applied(n, i, logs), Applied(n, i, logs');
      forall o | 0 <= o < |logs|
        ensures Part(logs[o], Lo(a, o), Hi(a, o), k) == Part(logs'[o], Lo(b, o), Hi(b, o), k)
      {
        PartPrefix(logs[o], logs'[o], Lo(a, o), Hi(a, o), k);
      }
      NamedSame(logs, a, logs', b, |logs|, k);
    }
  }

  lemma StoreGrows(p: P.State, i: int, logs: seq<seq<Inc>>, cuts: seq<set<int>>, logs': seq<seq<Inc>>, cuts': seq<set<int>>)
    requires StoreOK(p, i, logs, cuts) && Extends(logs, logs') && CutsGrow(cuts, cuts') && 0 <= i < |logs| && logs[i] == logs'[i]
    ensures StoreOK(p, i, logs', cuts')
  {
    HoldsGrows(p.store, logs, logs', All(p, i));
  }

  lemma OwnGrows(p: P.State, i: int, logs: seq<seq<Inc>>, cuts: seq<set<int>>, logs': seq<seq<Inc>>)
    requires OwnOK(p, i, logs) && StoreOK(p, i, logs, cuts) && Extends(logs, logs') && 0 <= i < |logs|
    ensures OwnOK(p, i, logs')
  {
    assert Lo(All(p, i), i) == p.ownRange.st;
    HoldsGrows(p.own, logs, logs', map[i := p.ownRange]);
    OwnKeysGrow(p.own, logs[i], logs'[i], p.ownRange);
  }

  // A node is unaffected when other origins log and cut.
  lemma NodeGrows(n: Node, i: int, logs: seq<seq<Inc>>, cuts: seq<set<int>>, logs': seq<seq<Inc>>, cuts': seq<set<int>>)
    requires NodeOK(n, i, logs, cuts) && Extends(logs, logs') && CutsGrow(cuts, cuts')
    requires 0 <= i < |logs| && logs[i] == logs'[i] && cuts[i] == cuts'[i]
    ensures NodeOK(n, i, logs', cuts')
  {
    HeldGrows(n, i, logs, cuts, logs', cuts');
    ForwardGrows(n, i, logs, cuts, logs', cuts');
    QueueGrows(n, i, logs, cuts, logs', cuts');
    TableGrows(n, i, logs, logs');
    StoreGrows(n.prop, i, logs, cuts, logs', cuts');
    OwnGrows(n.prop, i, logs, cuts, logs');
  }
}
