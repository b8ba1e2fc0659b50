/** A receiver's handler on bytes, repaired and shipped: a queue of byte buffers against a received byte buffer, whose own
    updates are subtracted and whose own range is deleted in place before it is copied and applied. */
module PackedReceive {
  import opened Int32
  import opened Messages
  import opened Bytes
  import opened UpdateBuffers
  import opened Packing
  import Layout
  import opened Dedup
  import Slots
  import R = ReceiverSpec

  // The bytes of `u` carry the buffer `b`.
  ghost predicate Is(u: UpdateBuffer, b: Buffer): (held: bool)
    reads u.mem
    ensures held ==> u.Valid() && Carries(u, b.updates)
  {
    Carries(u, b.updates) && Names(u.Ranges(), b.ranges) && Slots.Packed(u.Ranges())
  }

  lemma IsMeans(u: UpdateBuffer, b: Buffer)
    requires Is(u, b)
    ensures Names(u.Ranges(), b.ranges) && Slots.Packed(u.Ranges())
  {}

  ghost predicate Queued(queue: seq<UpdateBuffer>, q: seq<Buffer>, from: nat)
    requires from <= |queue| == |q|
    reads set u | u in queue :: u.mem
  {
    forall j | from <= j < |queue| :: Is(queue[j], q[j])
  }

  // Every buffer has memory of its own.
  ghost predicate Apart(queue: seq<UpdateBuffer>, recv: UpdateBuffer) {
    && (forall j | 0 <= j < |queue| :: queue[j].mem != recv.mem)
    && (forall i, j | 0 <= i < j < |queue| :: queue[i].mem != queue[j].mem)
  }

  // Looking an id up in the slots is looking it up in the ranges.
  lemma LookupIs(slots: seq<Slots.Slot>, ranges: map<int, Range>, id: int)
    requires Names(slots, ranges) && id >= 0
    ensures match Slots.Lookup(slots, id)
            case Some(s) => id in ranges && ranges[id] == Range(s.st, s.end)
            case None => id !in ranges
  {
    hide Slots.Find;
  }

  method OwnRange(u: UpdateBuffer, me: int32, ghost b: Buffer) returns (found: bool, st: int64, end: int64)
    requires Is(u, b) && me >= 0
    ensures found <==> me in b.ranges
    ensures found ==> b.ranges[me] == Range(st, end)
  {
    hide Layout.Valid, Slots.Lookup, Names;
    LookupIs(u.Ranges(), b.ranges, me);
    found, st, end := u.GetNodeRange(me);
  }

  // One turn: the three checks on the front batch, then the subtraction.
  method CancelOne(front: UpdateBuffer, recv: UpdateBuffer, me: int32, st: int64, end: int64, seqNum: int,
                   ghost batch: Buffer, ghost t: Table)
    returns (r: Result<int>)
    requires front.mem != recv.mem && Is(front, batch) && Carries(recv, t) && me >= 0
    modifies front.mem, recv.mem
    ensures r == match R.CheckFront([batch], me, Range(st, end), seqNum)
                 case Fatal(c) => Fatal(c)
                 case Ok(mine) => if batch.updates.Keys <= t.Keys then Ok(mine.end) else Fatal(OwnKeyNotInBuffer)
    ensures recv.Valid() && recv.Ranges() == old(recv.Ranges())
    ensures r.Ok? ==> Carries(recv, SubAll(t, batch.updates))
  {
    hide Layout.Valid, SubAll, Names, Carries;
    var found, mst, mend := OwnRange(front, me, batch);
    if !found {
      return Fatal(BatchWithoutOwnRange);
    }
    if !Range(st, end).Contains(Range(mst, mend)) {
      return Fatal(BatchNotContained);
    }
    if mst != seqNum {
      return Fatal(BatchOutOfOrder);
    }
    var ok := SubtractBatch(front, recv, batch.updates, t);
    r := if ok then Ok(mend) else Fatal(OwnKeyNotInBuffer);
  }

  // The loop and the deletion after it: what is left of the queue, and the received bytes without the own updates and the
  // own range; or the check that fails.
  method CancelOwn(shipped: bool, queue: seq<UpdateBuffer>, recv: UpdateBuffer, me: int32, ghost q: seq<Buffer>, ghost b: Buffer)
    returns (r: Result<seq<UpdateBuffer>>)
    requires |queue| == |q| && Queued(queue, q, 0) && Apart(queue, recv)
    requires Is(recv, b) && me >= 0 && me in b.ranges
    modifies recv.mem, set u | u in queue :: u.mem
    ensures match Loop(shipped, q, b.updates, me, b.ranges[me], b.ranges[me].st)
            case Fatal(c) => r == Fatal(c)
            case Ok(done) =>
              && r.Ok? && Left(queue, q, r.value, done.queue)
              && Carries(recv, done.updates) && Names(recv.Ranges(), b.ranges - {me})
  {
    hide Is, Carries, Names, Layout.Valid, Loop, R.CheckFront, SubAll, Slots.Packed, UpdateBuffer.Ranges;
    ghost var slots := recv.Ranges();
    IsMeans(recv, b);
    var _, st, end := OwnRange(recv, me, b);
    var seqNum: int := st;
    var more, i := true, 0;
    ghost var t := b.updates;
    ghost var goal := Loop(shipped, q, b.updates, me, b.ranges[me], b.ranges[me].st);
    assert q[0..] == q;
    while more
      invariant 0 <= i <= |queue| && Queued(queue, q, i)
      invariant recv.Valid() && recv.Ranges() == slots && Carries(recv, t)
      invariant goal == if more then Loop(shipped, q[i..], t, me, Range(st, end), seqNum) else Ok(R.Cancelled(q[i..], t))
      decreases more, |queue| - i
    {
      LoopTurns(shipped, q, i, t, me, Range(st, end), seqNum);
      if i == |queue| {
        return Fatal(OwnQueueEmpty);
      }
      var turn := CancelOne(queue[i], recv, me, st, end, seqNum, q[i], t);
      match turn {
        case Fatal(c) => return Fatal(c);
        case Ok(last) =>
          t := SubAll(t, q[i].updates);
          seqNum, i := NextSeq(shipped, last), i + 1;
          more := if shipped then seqNum < end else seqNum <= end;
      }
    }
    DeleteOwn(recv, me, b.ranges, t, slots);
    r := Ok(queue[i..]);
  }

  // What is left of a queue, as bytes and as buffers.
  ghost predicate Left(queue: seq<UpdateBuffer>, q: seq<Buffer>, rest: seq<UpdateBuffer>, done: seq<Buffer>)
    requires |queue| == |q|
    reads set u | u in queue :: u.mem
  {
    && |rest| == |done| <= |queue| && rest == queue[|queue| - |done|..] && done == q[|queue| - |done|..]
    && Queued(queue, q, |queue| - |done|)
  }

  method DeleteOwn(recv: UpdateBuffer, me: int32, ghost ranges: map<int, Range>, ghost t: Table, ghost slots: seq<Slots.Slot>)
    requires Carries(recv, t) && recv.Ranges() == slots && Names(slots, ranges) && Slots.Packed(slots) && me in ranges
    modifies recv.mem
    ensures Carries(recv, t) && Names(recv.Ranges(), ranges - {me})
  {
    hide Layout.Valid, Names, Slots.Packed, Slots.Delete, Encodes;
    NamesFewer(slots, ranges, me);
    var _ := recv.DeleteNodeRange(me);
  }

  // ---- whether a buffer names anybody else ----

  // As shipped: one or two calls of the iterator, which on a table without holes are enough.
  method NamesNobodyElse(recv: UpdateBuffer, me: int32, ghost b: Buffer) returns (nobody: bool)
    requires Is(recv, b) && me >= 0
    modifies recv.mem
    ensures Is(recv, b) && (nobody <==> b.ranges - {me} == map[])
  {
    hide Layout.Valid, Slots.Find, Slots.FirstHole, Encodes;
    ghost var slots := recv.Ranges();
    recv.StartNodeRangeIteration();
    var id, st, end := recv.NextNodeRangeShipped(0);
    if id == me {
      id, st, end := recv.NextNodeRangeShipped(1);
    }
    OthersNamed(slots, b.ranges, me);
    nobody := id < 0;
  }

  lemma OthersNamed(slots: seq<Slots.Slot>, ranges: map<int, Range>, me: int)
    requires Names(slots, ranges) && Slots.Packed(slots) && me >= 0
    ensures ranges - {me} == map[] <==> Slots.FirstHole(slots) == 0 || (Slots.FirstHole(slots) == 1 && slots[0].id == me)
  {
    hide Slots.Find, Slots.FirstHole;
    var h := Slots.FirstHole(slots);
    if h > 0 && !(h == 1 && slots[0].id == me) {
      var j := if slots[0].id == me then 1 else 0;
      assert slots[j].id in ranges - {me};
    } else {
      forall o | o in ranges ensures o == me {
        assert slots[Slots.Find(slots, o)].id == o;
      }
    }
  }

  // As repaired, after the own range has been deleted: one call of the repaired iterator.
  method NamesNobody(recv: UpdateBuffer, ghost t: Table, ghost ranges: map<int, Range>) returns (nobody: bool)
    requires Carries(recv, t) && Names(recv.Ranges(), ranges)
    modifies recv.mem
    ensures Carries(recv, t) && Names(recv.Ranges(), ranges) && (nobody <==> ranges == map[])
  {
    hide Layout.Valid, Encodes, Slots.NextRepaired, Names;
    AnybodyNamed(recv.Ranges(), ranges);
    recv.StartNodeRangeIteration();
    var id, st, end := recv.NextNodeRange(0);
    nobody := id < 0;
  }

  lemma AnybodyNamed(slots: seq<Slots.Slot>, ranges: map<int, Range>)
    requires Names(slots, ranges)
    ensures Slots.NextRepaired(slots, 0).1.None? <==> ranges == map[]
  {
    hide Slots.NextRepaired;
    NodesUptoEnds(slots, ranges);
    var (k, s) := Slots.NextRepaired(slots, 0);
    if s.None? {
      NodesUptoSkips(slots, 0, |slots|);
      assert ranges.Keys == {};
    } else {
      assert slots[k - 1].id in ranges;
    }
  }

  // ---- the handler ----

  function Handler(shipped: bool, r: R.State, me: int, b: Buffer): Result<R.Handled> {
    if shipped then R.OnUpdateBufferShipped(r, me, b) else R.OnUpdateBuffer(r, me, b)
  }

  // The bytes forwarded to the propagator, if any.
  ghost predicate Forwards(forward: UpdateBuffer?, b: Option<Buffer>)
    reads if forward == null then {} else {forward.mem}
  {
    match b
    case None => forward == null
    case Some(f) => forward != null && Carries(forward, f.updates) && Names(forward.Ranges(), f.ranges)
  }

  // Copy the bytes for the propagator and add the updates to the table.
  method Deliver(recv: UpdateBuffer, table: Table, ghost b: Buffer) returns (after: Table, forward: UpdateBuffer)
    requires Carries(recv, b.updates) && Names(recv.Ranges(), b.ranges)
    modifies recv.mem
    ensures after == AddAll(table, b.updates) && fresh(forward) && fresh(forward.mem) && Forwards(forward, Some(b))
  {
    hide Layout.Valid, Names, AddAll;
    forward := new UpdateBuffer.Copy(recv.mem[..]);
    SameBytes(recv, forward, b);
    after := AddUpdates(recv, table, b.updates);
  }

  lemma SameBytes(u: UpdateBuffer, v: UpdateBuffer, b: Buffer)
    requires Carries(u, b.updates) && Names(u.Ranges(), b.ranges) && v.mem[..] == u.mem[..]
    ensures Carries(v, b.updates) && Names(v.Ranges(), b.ranges)
  {
    hide Names, Encodes;
  }

  // What the loop leaves, or everything if the buffer does not name its receiver.
  function Cancelled(shipped: bool, q: seq<Buffer>, me: int, b: Buffer): Result<R.Cancelled> {
    if me in b.ranges then Loop(shipped, q, b.updates, me, b.ranges[me], b.ranges[me].st) else Ok(R.Cancelled(q, b.updates))
  }

  lemma HandlerIs(shipped: bool, table: Table, q: seq<Buffer>, me: int, b: Buffer)
    ensures Handler(shipped, R.State(table, q), me, b)
         == if shipped && b.ranges - {me} == map[] then Ok(R.Handled(R.State(table, q), None))
            else match Cancelled(shipped, q, me, b)
              case Fatal(c) => Fatal(c)
              case Ok(done) =>
                if b.ranges - {me} == map[] then Ok(R.Handled(R.State(table, done.queue), None))
                else Ok(R.Handled(R.State(AddAll(table, done.updates), done.queue), Some(Buffer(done.updates, b.ranges - {me}))))
  {
    hide R.Cancel, R.CancelShipped, AddAll;
    if me !in b.ranges {
      assert b.ranges - {me} == b.ranges;
    }
  }

  method CancelIfNamed(shipped: bool, queue: seq<UpdateBuffer>, recv: UpdateBuffer, me: int32, ghost q: seq<Buffer>, ghost b: Buffer)
    returns (r: Result<seq<UpdateBuffer>>)
    requires |queue| == |q| && Queued(queue, q, 0) && Apart(queue, recv) && Is(recv, b) && me >= 0
    modifies recv.mem, set u | u in queue :: u.mem
    ensures match Cancelled(shipped, q, me, b)
            case Fatal(c) => r == Fatal(c)
            case Ok(done) =>
              r.Ok? && Left(queue, q, r.value, done.queue) && Carries(recv, done.updates) && Names(recv.Ranges(), b.ranges - {me})
  {
    hide Is, Carries, Names, Layout.Valid, Loop;
    assert queue[0..] == queue && q[0..] == q;
    var own, st, end := OwnRange(recv, me, b);
    if own {
      r := CancelOwn(shipped, queue, recv, me, q, b);
    } else {
      IsMeans(recv, b);
      assert b.ranges - {me as int} == b.ranges;
      r := Ok(queue);
    }
  }

  // The whole handler of a received buffer on bytes: what is left of the queue, the table, and the bytes forwarded, exactly
  // as the ring's step says, aborts included.
  method OnUpdateBuffer(shipped: bool, queue: seq<UpdateBuffer>, recv: UpdateBuffer, me: int32, table: Table,
                        ghost q: seq<Buffer>, ghost b: Buffer)
    returns (r: Result<seq<UpdateBuffer>>, after: Table, forward: UpdateBuffer?)
    requires |queue| == |q| && Queued(queue, q, 0) && Apart(queue, recv) && Is(recv, b) && me >= 0
    modifies recv.mem, set u | u in queue :: u.mem
    ensures match Handler(shipped, R.State(table, q), me, b)
            case Fatal(c) => r == Fatal(c)
            case Ok(h) => r.Ok? && after == h.state.table && Forwards(forward, h.forward) && Left(queue, q, r.value, h.state.queue)
  {
    hide Is, Carries, Names, Layout.Valid, Cancelled, AddAll, Handler, Queued;
    HandlerIs(shipped, table, q, me, b);
    after, forward := table, null;
    if shipped {
      var nobody := NamesNobodyElse(recv, me, b);
      if nobody {
        assert queue[0..] == queue && q[0..] == q;
        return Ok(queue), table, null;
      }
    }
    r := CancelIfNamed(shipped, queue, recv, me, q, b);
    if r.Fatal? {
      return;
    }
    ghost var done := Cancelled(shipped, q, me, b).value;
    if !shipped {
      var nobody := NamesNobody(recv, done.updates, b.ranges - {me});
      if nobody {
        return;
      }
    }
    after, forward := Deliver(recv, table, Buffer(done.updates, b.ranges - {me}));
  }
}
