/** What one message does to a propagator, as functions on the propagator's local variables. */
module PropagatorSpec {
  import opened Int32
  import opened Messages

  datatype State = State(
    store: Table,              // update_store: everything not yet sent
    own: Table,                // my_update_store: the node's own part of it
    ownRange: Range,           // my_update_range
    peers: map<int, Range>,    // table_peers_update_range
    held: Option<Buffer>       // built, but waiting for the receiver's acknowledgement of the own batch
  )

  const START := State(map[], map[], Range(0, -1), map[], None)

  // A logged increment takes the next sequence number and enters both stores.
  function OnUpdateLog(p: State, inc: Inc): State {
    p.(ownRange := Range(p.ownRange.st, p.ownRange.end + 1),
       store := AddAt(p.store, inc.key, inc.delta),
       own := AddAt(p.own, inc.key, inc.delta))
  }

  predicate Contiguous(peers: map<int, Range>, ranges: map<int, Range>) {
    forall o | o in peers && o in ranges :: peers[o].end + 1 == ranges[o].st
  }

  function Extend(peers: map<int, Range>, ranges: map<int, Range>): map<int, Range> {
    map o | o in peers.Keys + ranges.Keys ::
      if o !in ranges then peers[o]
      else if o in peers then Range(peers[o].st, ranges[o].end)
      else ranges[o]
  }

  // A forwarded buffer is merged key by key, and its ranges must continue the ranges already held.
  function OnUpdateBuffer(p: State, b: Buffer): Result<State> {
    if !Contiguous(p.peers, b.ranges) then Fatal(RangesNotContiguous)
    else Ok(p.(store := AddAll(p.store, b.updates), peers := Extend(p.peers, b.ranges)))
  }

  // The same when the iteration over the ranges reaches only some of them: every update is merged all the same.
  function OnUpdateBufferSeen(p: State, b: Buffer, seen: set<int>): Result<State> {
    var ranges := Restrict(b.ranges, seen);
    if !Contiguous(p.peers, ranges) then Fatal(RangesNotContiguous)
    else Ok(p.(store := AddAll(p.store, b.updates), peers := Extend(p.peers, ranges)))
  }

  // What a timer firing sends: nothing; the buffer; or first the own batch, the buffer only once that is acknowledged.
  datatype Flush = Nothing | SendNow(buffer: Buffer) | RecordFirst(batch: Buffer, buffer: Buffer)

  function Pending(ranges: map<int, Range>): map<int, Range> {
    map o | o in ranges && !ranges[o].Empty() :: ranges[o]
  }

  function Emptied(r: Range): Range {
    Range(r.end + 1, r.end)
  }

  // What is sent is no longer pending.
  function AllEmptied(ranges: map<int, Range>): map<int, Range> {
    map o | o in ranges :: if ranges[o].Empty() then ranges[o] else Emptied(ranges[o])
  }

  function OnTimer(p: State, me: int): Result<(State, Flush)> {
    if p.store == map[] then Ok((p, Nothing))
    else
      var others := Pending(p.peers);
      var ranges := if p.ownRange.Empty() then others else others[me := p.ownRange];
      var buffer := Buffer(p.store, ranges);
      var q := p.(store := map[], own := map[], ownRange := Emptied(p.ownRange),
                  peers := AllEmptied(p.peers));
      if p.own == map[] then Ok((q, SendNow(buffer)))
      else if p.ownRange.Empty() then Fatal(OwnUpdatesWithoutRange)
      else Ok((q.(held := Some(buffer)), RecordFirst(Buffer(p.own, map[me := p.ownRange]), buffer)))
  }
}

/** What one message does to a receiver, as functions on its table and its queue of own batches. */
module ReceiverSpec {
  import opened Int32
  import opened Messages

  datatype State = State(table: Table, queue: seq<Buffer>)

  function OnMyUpdates(r: State, batch: Buffer): State {
    r.(queue := r.queue + [batch])
  }

  // Cancelling own updates: the queue that is left and the buffer's updates with the own deltas subtracted.
  datatype Cancelled = Cancelled(queue: seq<Buffer>, updates: Table)

  // The three checks on the front batch.
  function CheckFront(queue: seq<Buffer>, me: int, recv: Range, seqNum: int): Result<Range> {
    if queue == [] then Fatal(OwnQueueEmpty)
    else if me !in queue[0].ranges then Fatal(BatchWithoutOwnRange)
    else if !recv.Contains(queue[0].ranges[me]) then Fatal(BatchNotContained)
    else if queue[0].ranges[me].st != seqNum then Fatal(BatchOutOfOrder)
    else Ok(queue[0].ranges[me])
  }

  // The loop as repaired: the next batch must start one past the end of the last one.
  function Cancel(queue: seq<Buffer>, updates: Table, me: int, recv: Range, seqNum: int): Result<Cancelled>
    decreases |queue|
  {
    match CheckFront(queue, me, recv, seqNum)
    case Fatal(c) => Fatal(c)
    case Ok(mine) =>
      if !(queue[0].updates.Keys <= updates.Keys) then Fatal(OwnKeyNotInBuffer)
      else
        var rest := SubAll(updates, queue[0].updates);
        if mine.end + 1 <= recv.end then Cancel(queue[1..], rest, me, recv, mine.end + 1)
        else Ok(Cancelled(queue[1..], rest))
  }

  // The loop as shipped: the next batch must start at the end of the last one.
  function CancelShipped(queue: seq<Buffer>, updates: Table, me: int, recv: Range, seqNum: int): Result<Cancelled>
    decreases |queue|
  {
    match CheckFront(queue, me, recv, seqNum)
    case Fatal(c) => Fatal(c)
    case Ok(mine) =>
      if !(queue[0].updates.Keys <= updates.Keys) then Fatal(OwnKeyNotInBuffer)
      else
        var rest := SubAll(updates, queue[0].updates);
        if mine.end < recv.end then CancelShipped(queue[1..], rest, me, recv, mine.end)
        else Ok(Cancelled(queue[1..], rest))
  }

  // What handling a received buffer leaves: the receiver, and the buffer forwarded to the propagator, if any.
  datatype Handled = Handled(state: State, forward: Option<Buffer>)

  function Deliver(r: State, b: Buffer): Handled {
    Handled(r.(table := AddAll(r.table, b.updates)), Some(b))
  }

  // Repaired: cancel the own updates first, then drop the buffer if it names nobody else.
  function OnUpdateBuffer(r: State, me: int, b: Buffer): Result<Handled> {
    if me in b.ranges then
      match Cancel(r.queue, b.updates, me, b.ranges[me], b.ranges[me].st)
      case Fatal(c) => Fatal(c)
      case Ok(done) =>
        var rest := b.ranges - {me};
        if rest == map[] then Ok(Handled(r.(queue := done.queue), None))
        else Ok(Deliver(r.(queue := done.queue), Buffer(done.updates, rest)))
    else if b.ranges == map[] then Ok(Handled(r, None))
    else Ok(Deliver(r, b))
  }

  // Shipped: a buffer that names nobody else is dropped before the queue is looked at.
  function OnUpdateBufferShipped(r: State, me: int, b: Buffer): Result<Handled> {
    if b.ranges - {me} == map[] then Ok(Handled(r, None))
    else if me in b.ranges then
      match CancelShipped(r.queue, b.updates, me, b.ranges[me], b.ranges[me].st)
      case Fatal(c) => Fatal(c)
      case Ok(done) => Ok(Deliver(r.(queue := done.queue), Buffer(done.updates, b.ranges - {me})))
    else Ok(Deliver(r, b))
  }
}
