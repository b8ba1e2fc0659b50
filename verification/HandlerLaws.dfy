/** What each handler of the two threads does, key by key and origin by origin, in any state: the laws a maintainer would check
    the code against. They name no helper of the handlers' own definitions. */
module HandlerLaws {
  import opened Int32
  import opened Messages
  import opened Dedup
  import P = PropagatorSpec
  import R = ReceiverSpec

  // ---- the propagator ----

  // Absorbing an increment: the sum of everything held grows by the delta at its key, in the store and in the own store
  // alike; the own range grows by one sequence number at its end.
  lemma LogLaw(p: P.State, inc: Inc)
    ensures var q := P.OnUpdateLog(p, inc);
            && (forall k :: Get(q.store, k) == if k == inc.key then VAdd(Get(p.store, k), inc.delta) else Get(p.store, k))
            && (forall k :: Get(q.own, k) == if k == inc.key then VAdd(Get(p.own, k), inc.delta) else Get(p.own, k))
            && q.store.Keys == p.store.Keys + {inc.key} && q.own.Keys == p.own.Keys + {inc.key}
            && q.ownRange.st == p.ownRange.st && q.ownRange.end == p.ownRange.end + 1 && q.peers == p.peers && q.held == p.held
  {
    hide VAdd;
  }

  // Merging a buffer of whose ranges only those in `seen` are reached. It aborts exactly when a reached range leaves a gap or
  // overlaps. Otherwise every update is added, whichever ranges are reached; reached origins are extended, or begun; the
  // others stay as they were.
  lemma MergeLaw(p: P.State, b: Buffer, seen: set<int>)
    ensures P.OnUpdateBufferSeen(p, b, seen).Fatal?
       <==> exists o :: o in seen && o in p.peers && o in b.ranges && b.ranges[o].st != p.peers[o].end + 1
    ensures P.OnUpdateBufferSeen(p, b, seen).Fatal? ==> P.OnUpdateBufferSeen(p, b, seen).check == RangesNotContiguous
    ensures P.OnUpdateBufferSeen(p, b, seen).Ok? ==>
              var q := P.OnUpdateBufferSeen(p, b, seen).value;
              && (forall k :: Get(q.store, k) == VAdd(Get(p.store, k), Get(b.updates, k)))
              && q.store.Keys == p.store.Keys + b.updates.Keys
              && q.peers.Keys == p.peers.Keys + (b.ranges.Keys * seen)
              && (forall o | o in b.ranges && o in seen ::
                    q.peers[o].end == b.ranges[o].end && q.peers[o].st == if o in p.peers then p.peers[o].st else b.ranges[o].st)
              && (forall o | o in p.peers && !(o in b.ranges && o in seen) :: q.peers[o] == p.peers[o])
              && q.own == p.own && q.ownRange == p.ownRange && q.held == p.held
  {
    hide VAdd;
    var r := P.OnUpdateBufferSeen(p, b, seen);
    if r.Fatal? {
      var o :| o in p.peers && o in Restrict(b.ranges, seen) && p.peers[o].end + 1 != Restrict(b.ranges, seen)[o].st;
      assert o in seen && o in b.ranges;
    } else {
      forall k ensures Get(r.value.store, k) == VAdd(Get(p.store, k), Get(b.updates, k)) {
        if k !in p.store && k !in b.updates {
          ZeroAdds();
        }
      }
      forall o | o in seen && o in p.peers && o in b.ranges ensures b.ranges[o].st == p.peers[o].end + 1 {
        assert o in Restrict(b.ranges, seen);
      }
    }
  }

  lemma ZeroAdds()
    ensures VAdd(0, 0) == 0
  {}

  // The merge of the protocol reaches every range.
  lemma FullMerge(p: P.State, b: Buffer)
    ensures P.OnUpdateBuffer(p, b) == P.OnUpdateBufferSeen(p, b, b.ranges.Keys)
  {
    assert Restrict(b.ranges, b.ranges.Keys) == b.ranges;
  }

  // What a flush sends of the ranges: every one that is not empty, the own one under the node's own id.
  ghost predicate Sends(p: P.State, me: int, b: Buffer) {
    && b.updates == p.store
    && (me in b.ranges <==> p.ownRange.st <= p.ownRange.end || (me in p.peers && p.peers[me].st <= p.peers[me].end))
    && (forall o | o != me :: o in b.ranges <==> o in p.peers && p.peers[o].st <= p.peers[o].end)
    && (forall o | o in b.ranges ::
          if o == me && p.ownRange.st <= p.ownRange.end then b.ranges[o] == p.ownRange else o in p.peers && b.ranges[o] == p.peers[o])
  }

  // A timer firing. With an empty store nothing happens. It aborts exactly when there are own updates without an own range.
  // Otherwise the whole store is sent, and nothing of it is pending any more; if there are own updates, a batch of exactly
  // those under exactly the own range goes to the receiver first and the buffer is held back, and else it goes out at once.
  lemma FlushLaw(p: P.State, me: int)
    ensures p.store == map[] ==> P.OnTimer(p, me) == Ok((p, P.Nothing))
    ensures P.OnTimer(p, me).Fatal? <==> p.store != map[] && p.own != map[] && p.ownRange.st > p.ownRange.end
    ensures P.OnTimer(p, me).Fatal? ==> P.OnTimer(p, me).check == OwnUpdatesWithoutRange
    ensures p.store != map[] && P.OnTimer(p, me).Ok? ==>
              var (q, flush) := P.OnTimer(p, me).value;
              && q.store == map[] && q.own == map[] && q.ownRange == Range(p.ownRange.end + 1, p.ownRange.end)
              && q.peers.Keys == p.peers.Keys
              && (forall o | o in p.peers ::
                    q.peers[o] == if p.peers[o].st <= p.peers[o].end then Range(p.peers[o].end + 1, p.peers[o].end) else p.peers[o])
              && match flush
                 case Nothing => false
                 case SendNow(b) => p.own == map[] && Sends(p, me, b) && q.held == p.held
                 case RecordFirst(batch, b) =>
                   p.own != map[] && Sends(p, me, b) && q.held == Some(b)
                   && batch.updates == p.own && batch.ranges.Keys == {me} && batch.ranges[me] == p.ownRange
  {}

  // ---- the receiver ----

  // An own batch goes to the back of the queue.
  lemma RecordLaw(r: R.State, batch: Buffer)
    ensures var s := R.OnMyUpdates(r, batch);
            |s.queue| == |r.queue| + 1 && s.queue[..|r.queue|] == r.queue && s.queue[|r.queue|] == batch && s.table == r.table
  {}

  // What delivery does: the buffer that is forwarded is the one applied, key by key, to the table.
  ghost predicate Delivers(r: R.State, h: R.Handled, queue: seq<Buffer>, updates: Table, others: map<int, Range>) {
    && h.state.queue == queue && h.forward == Some(Buffer(updates, others))
    && h.state.table.Keys == r.table.Keys + updates.Keys
    && forall k :: Get(h.state.table, k) == VAdd(Get(r.table, k), Get(updates, k))
  }

  lemma DeliverLaw(r: R.State, queue: seq<Buffer>, updates: Table, others: map<int, Range>)
    ensures Delivers(r, R.Deliver(r.(queue := queue), Buffer(updates, others)), queue, updates, others)
  {
    hide VAdd;
    ZeroAdds();
  }

  // A received buffer, repaired or shipped. The shipped receiver does nothing with a buffer that names nobody else. Otherwise
  // an own range is cancelled first, by the loop whose every outcome `Dedup.LoopDecides` gives, and what is left goes to the
  // table and to the propagator under the other nodes' ranges, unless there are none.
  lemma ReceiveLaw(shipped: bool, r: R.State, me: int, b: Buffer)
    ensures var h := if shipped then R.OnUpdateBufferShipped(r, me, b) else R.OnUpdateBuffer(r, me, b);
            var others := b.ranges - {me};
            if shipped && others == map[] then h == Ok(R.Handled(r, None))
            else if me in b.ranges then
              match Loop(shipped, r.queue, b.updates, me, b.ranges[me], b.ranges[me].st)
              case Fatal(c) => h == Fatal(c)
              case Ok(done) =>
                h.Ok? && if others == map[] then h.value == R.Handled(r.(queue := done.queue), None)
                         else Delivers(r, h.value, done.queue, done.updates, others)
            else if others == map[] then h == Ok(R.Handled(r, None))
            else h.Ok? && Delivers(r, h.value, r.queue, b.updates, b.ranges)
  {
    hide R.Cancel, R.CancelShipped, R.Deliver, Delivers;
    var others := b.ranges - {me};
    if me in b.ranges {
      var loop := Loop(shipped, r.queue, b.updates, me, b.ranges[me], b.ranges[me].st);
      if loop.Ok? {
        DeliverLaw(r, loop.value.queue, loop.value.updates, others);
      }
    } else {
      assert others == b.ranges;
      assert r.(queue := r.queue) == r && Buffer(b.updates, b.ranges) == b;
      DeliverLaw(r, r.queue, b.updates, b.ranges);
    }
  }
}
