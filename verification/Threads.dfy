/** The table, the propagator and the receiver as the objects they are: each message handler is a method that changes the
    thread's own variables and is proved to do what the ring's step functions say. */
module Threads {
  import opened Int32
  import opened Messages
  import P = PropagatorSpec
  import R = ReceiverSpec

  // ---- facts about filling and draining a table one key at a time ----

  lemma AddOne(m: Table, d: Table, done: set<int>, k: int)
    requires k in d && k !in done
    ensures AddAt(AddAll(m, Restrict(d, done)), k, d[k]) == AddAll(m, Restrict(d, done + {k}))
  {
    hide Wrap;
    AdditionCommutes(0, d[k]);
    AddZero(Get(m, k));
    forall j | j in m.Keys + done ensures j != k ==> Get(Restrict(d, done), j) == Get(Restrict(d, done + {k}), j) {}
  }

  lemma AddZero(v: Value)
    ensures VAdd(v, 0) == v
  {}

  lemma AddNone(m: Table)
    ensures AddAll(m, map[]) == m
  {
    forall k | k in m ensures VAdd(m[k], 0) == m[k] {
      AddZero(m[k]);
    }
  }

  lemma ExtendOne(peers: map<int, Range>, ranges: map<int, Range>, done: set<int>, o: int)
    requires o in ranges && o !in done
    ensures P.Extend(peers, Restrict(ranges, done + {o}))
         == P.Extend(peers, Restrict(ranges, done))[o := if o in peers then Range(peers[o].st, ranges[o].end) else ranges[o]]
    ensures o in P.Extend(peers, Restrict(ranges, done)) <==> o in peers
    ensures o in peers ==> P.Extend(peers, Restrict(ranges, done))[o] == peers[o]
  {}

  // Subtraction at the keys done so far.
  function SubSome(m: Table, d: Table, done: set<int>): Table {
    map k | k in m :: if k in done && k in d then VSub(m[k], d[k]) else m[k]
  }

  lemma SubSomeAll(m: Table, d: Table)
    ensures SubSome(m, d, d.Keys) == SubAll(m, d)
  {}

  lemma SomeMember(s: set<int>)
    requires s != {}
    ensures exists k :: k in s
  {
    if forall k :: k !in s {
      assert false;
    }
  }

  // A table shared with the application.
  class InternalTable {
    var storage: Table

    constructor ()
      ensures storage == map[]
    {
      storage := map[];
    }

    // Insert the zero value if the key is missing, then add.
    method IncRaw(key: int, delta: Value)
      modifies this
      ensures storage == AddAt(old(storage), key, delta)
    {
      if key !in storage {
        storage := storage[key := 0];
      }
      storage := storage[key := VAdd(storage[key], delta)];
    }

    // Reading creates the key, which no reader can tell from its being missing.
    method Read(key: int) returns (v: Value)
      modifies this
      ensures v == Get(old(storage), key)
      ensures storage.Keys == old(storage).Keys + {key}
      ensures forall k :: Get(storage, k) == Get(old(storage), k)
    {
      if key !in storage {
        storage := storage[key := 0];
      }
      v := storage[key];
    }

    // Add every update of a received buffer.
    method Apply(updates: Table)
      modifies this
      ensures storage == AddAll(old(storage), updates)
    {
      AddNone(storage);
      var left, done := updates.Keys, {};
      assert Restrict(updates, {}) == map[];
      while left != {}
        invariant left + done == updates.Keys && left !! done
        invariant storage == AddAll(old(storage), Restrict(updates, done))
        decreases left
      {
        SomeMember(left);
        var k :| k in left;
        AddOne(old(storage), updates, done, k);
        IncRaw(k, updates[k]);
        left, done := left - {k}, done + {k};
      }
      assert Restrict(updates, done) == updates;
    }
  }

  class Propagator {
    const me: int
    var store: Table
    var own: Table
    var ownRange: Range
    var peers: map<int, Range>
    var held: Option<Buffer>
    var running: bool         // state RUN; afterwards logs and forwarded buffers are ignored

    ghost function View(): P.State
      reads this
    {
      P.State(store, own, ownRange, peers, held)
    }

    constructor (me: int)
      ensures this.me == me && View() == P.START && running
    {
      this.me, running := me, true;
      store, own, ownRange, peers, held := map[], map[], Range(0, -1), map[], None;
    }

    // Find the key or create it with the zero value, then add.
    method AddUpdate(key: int, delta: Value)
      modifies this`store
      ensures store == AddAt(old(store), key, delta)
    {
      if key !in store {
        store := store[key := 0];
      }
      store := store[key := VAdd(store[key], delta)];
    }

    method OnUpdateLog(inc: Inc)
      modifies this
      ensures View() == if running then P.OnUpdateLog(old(View()), inc) else old(View())
      ensures running == old(running)
    {
      if !running {
        return;
      }
      ownRange := Range(ownRange.st, ownRange.end + 1);
      AddUpdate(inc.key, inc.delta);
      if inc.key !in own {
        own := own[inc.key := 0];
      }
      own := own[inc.key := VAdd(own[inc.key], inc.delta)];
    }

    method MergeUpdates(updates: Table)
      modifies this`store
      ensures store == AddAll(old(store), updates)
    {
      AddNone(store);
      var left, done := updates.Keys, {};
      assert Restrict(updates, {}) == map[];
      while left != {}
        invariant left + done == updates.Keys && left !! done
        invariant store == AddAll(old(store), Restrict(updates, done))
        decreases left
      {
        SomeMember(left);
        var k :| k in left;
        AddOne(old(store), updates, done, k);
        AddUpdate(k, updates[k]);
        left, done := left - {k}, done + {k};
      }
      assert Restrict(updates, done) == updates;
    }

    // Range by range; the first one that does not continue what is held aborts.
    method MergeRanges(ranges: map<int, Range>) returns (ok: bool)
      modifies this`peers
      ensures ok <==> P.Contiguous(old(peers), ranges)
      ensures ok ==> peers == P.Extend(old(peers), ranges)
    {
      ghost var before := peers;
      var left, done := ranges.Keys, {};
      assert P.Extend(before, map[]) == before;
      assert Restrict(ranges, {}) == map[];
      while left != {}
        invariant left + done == ranges.Keys && left !! done
        invariant peers == P.Extend(before, Restrict(ranges, done))
        invariant forall o | o in done && o in before :: before[o].end + 1 == ranges[o].st
        decreases left
      {
        SomeMember(left);
        var o :| o in left;
        ExtendOne(before, ranges, done, o);
        if o !in peers {
          peers := peers[o := ranges[o]];
        } else {
          if peers[o].end + 1 != ranges[o].st {
            return false;
          }
          peers := peers[o := Range(peers[o].st, ranges[o].end)];
        }
        left, done := left - {o}, done + {o};
      }
      assert Restrict(ranges, done) == ranges;
      ok := true;
    }

    method OnUpdateBuffer(b: Buffer) returns (r: Result<()>)
      modifies this
      ensures running == old(running) && (!running ==> r == Ok(()) && View() == old(View()))
      ensures running ==> match P.OnUpdateBuffer(old(View()), b)
                          case Ok(q) => r == Ok(()) && View() == q
                          case Fatal(c) => r == Fatal(c)
    {
      if !running {
        return Ok(());
      }
      MergeUpdates(b.updates);
      var ok := MergeRanges(b.ranges);
      r := if ok then Ok(()) else Fatal(RangesNotContiguous);
    }

    // Move every entry of the store into a new buffer.
    method DrainStore() returns (updates: Table)
      modifies this`store
      ensures updates == old(store) && store == map[]
    {
      updates := map[];
      while store != map[]
        invariant updates.Keys !! store.Keys
        invariant updates + store == old(store)
        decreases store.Keys
      {
        var k := SomeKey(store);
        updates, store := updates[k := store[k]], store - {k};
      }
    }

    // Name the ranges that are not empty, and empty them.
    method TakeRanges() returns (ranges: map<int, Range>)
      modifies this`peers
      ensures ranges == P.Pending(old(peers))
      ensures peers == P.AllEmptied(old(peers))
    {
      ghost var before := peers;
      ranges := map[];
      var left := peers.Keys;
      while left != {}
        invariant left <= before.Keys == peers.Keys
        invariant ranges == map o | o in before && o !in left && !before[o].Empty() :: before[o]
        invariant forall o | o in before :: peers[o] == if o in left || before[o].Empty() then before[o] else P.Emptied(before[o])
        decreases left
      {
        SomeMember(left);
        var o :| o in left;
        if !peers[o].Empty() {
          ranges := ranges[o := peers[o]];
          peers := peers[o := P.Emptied(peers[o])];
        }
        left := left - {o};
      }
      assert forall o | o in before :: peers[o] == P.AllEmptied(before)[o];
      assert peers.Keys == P.AllEmptied(before).Keys;
    }

    method OnTimer() returns (r: Result<P.Flush>)
      modifies this
      ensures running == old(running)
      ensures match P.OnTimer(old(View()), me)
              case Ok((q, flush)) => r == Ok(flush) && View() == q
              case Fatal(c) => r == Fatal(c)
    {
      if store == map[] {
        return Ok(P.Nothing);
      }
      var updates := DrainStore();
      var ranges := TakeRanges();
      if !ownRange.Empty() {
        ranges := ranges[me := ownRange];
      }
      var buffer := Buffer(updates, ranges);
      if own == map[] {
        r := Ok(P.SendNow(buffer));
      } else if ownRange.Empty() {
        return Fatal(OwnUpdatesWithoutRange);
      } else {
        r := Ok(P.RecordFirst(Buffer(own, map[me := ownRange]), buffer));
        held := Some(buffer);
        own := map[];
      }
      ownRange := P.Emptied(ownRange);
    }

    // The application's signal: from now on nothing is absorbed, and what was not sent is dropped.
    method Terminate()
      modifies this
      ensures !running && View() == old(View()).(store := map[])
    {
      running := false;
      var _ := DrainStore();
    }
  }

  method SomeKey(m: Table) returns (k: int)
    requires m != map[]
    ensures k in m
  {
    var keys := m.Keys;
    if keys == {} {
      assert false;
    }
    SomeMember(keys);
    k :| k in keys;
  }

  class Receiver {
    const me: int
    const table: InternalTable
    var queue: seq<Buffer>
    var running: bool         // state RUN; afterwards own batches and received buffers are discarded

    ghost function View(): R.State
      reads this, table
    {
      R.State(table.storage, queue)
    }

    constructor (me: int, table: InternalTable)
      ensures this.me == me && this.table == table && queue == [] && running
    {
      this.me, this.table, queue, running := me, table, [], true;
    }

    method OnMyUpdates(batch: Buffer)
      modifies this
      ensures View() == if running then R.OnMyUpdates(old(View()), batch) else old(View())
      ensures running == old(running)
    {
      if running {
        queue := queue + [batch];
      }
    }

    // Subtract one own batch from the received updates, key by key.
    method SubtractBatch(updates: Table, batch: Table) returns (r: Result<Table>)
      ensures r == if batch.Keys <= updates.Keys then Ok(SubAll(updates, batch)) else Fatal(OwnKeyNotInBuffer)
    {
      var rest := updates;
      var left, done := batch.Keys, {};
      while left != {}
        invariant left + done == batch.Keys && left !! done && done <= updates.Keys
        invariant rest == SubSome(updates, batch, done)
        decreases left
      {
        SomeMember(left);
        var k :| k in left;
        if k !in rest {
          return Fatal(OwnKeyNotInBuffer);
        }
        rest := rest[k := VSub(rest[k], batch[k])];
        left, done := left - {k}, done + {k};
      }
      SubSomeAll(updates, batch);
      r := Ok(rest);
    }

    // The cancelling loop, repaired: runs at least once, and looks for the next batch one past the last.
    method Cancel(b: Buffer) returns (r: Result<Table>)
      requires me in b.ranges
      modifies this
      ensures running == old(running)
      ensures match R.Cancel(old(queue), b.updates, me, b.ranges[me], b.ranges[me].st)
              case Ok(done) => r == Ok(done.updates) && queue == done.queue
              case Fatal(c) => r == Fatal(c)
    {
      var recv, seqNum, updates := b.ranges[me], b.ranges[me].st, b.updates;
      ghost var goal := R.Cancel(queue, updates, me, recv, seqNum);
      var more := true;
      while more
        invariant running == old(running)
        invariant goal == if more then R.Cancel(queue, updates, me, recv, seqNum) else Ok(R.Cancelled(queue, updates))
        decreases more, |queue|
      {
        match R.CheckFront(queue, me, recv, seqNum) {
          case Fatal(c) => return Fatal(c);
          case Ok(mine) =>
            seqNum := mine.end + 1;
            var batch := queue[0];
            queue := queue[1..];
            var rest := SubtractBatch(updates, batch.updates);
            if rest.Fatal? {
              return rest;
            }
            updates, more := rest.value, seqNum <= recv.end;
        }
      }
      r := Ok(updates);
    }

    // The cancelling loop, shipped.
    method CancelShipped(b: Buffer) returns (r: Result<Table>)
      requires me in b.ranges
      modifies this
      ensures running == old(running)
      ensures match R.CancelShipped(old(queue), b.updates, me, b.ranges[me], b.ranges[me].st)
              case Ok(done) => r == Ok(done.updates) && queue == done.queue
              case Fatal(c) => r == Fatal(c)
    {
      var recv, seqNum, updates := b.ranges[me], b.ranges[me].st, b.updates;
      ghost var goal := R.CancelShipped(queue, updates, me, recv, seqNum);
      var more := true;
      while more
        invariant running == old(running)
        invariant goal == if more then R.CancelShipped(queue, updates, me, recv, seqNum) else Ok(R.Cancelled(queue, updates))
        decreases more, |queue|
      {
        match R.CheckFront(queue, me, recv, seqNum) {
          case Fatal(c) => return Fatal(c);
          case Ok(mine) =>
            seqNum := mine.end;
            var batch := queue[0];
            queue := queue[1..];
            var rest := SubtractBatch(updates, batch.updates);
            if rest.Fatal? {
              return rest;
            }
            updates, more := rest.value, seqNum < recv.end;
        }
      }
      r := Ok(updates);
    }

    // Cancel, then drop or forward and apply. The result is the forwarded buffer, if any.
    method OnUpdateBuffer(b: Buffer) returns (r: Result<Option<Buffer>>)
      modifies this, table
      ensures running == old(running) && (!running ==> r == Ok(None) && View() == old(View()))
      ensures running ==> match R.OnUpdateBuffer(old(View()), me, b)
                          case Ok(h) => r == Ok(h.forward) && View() == h.state
                          case Fatal(c) => r == Fatal(c)
    {
      if !running {
        return Ok(None);
      }
      var received := b;
      if me in b.ranges {
        var rest := Cancel(b);
        match rest {
          case Fatal(c) => return Fatal(c);
          case Ok(updates) => received := Buffer(updates, b.ranges - {me});
        }
      }
      if received.ranges == map[] {
        return Ok(None);
      }
      table.Apply(received.updates);
      r := Ok(Some(received));
    }

    // As shipped: look for somebody else's range first.
    method OnUpdateBufferShipped(b: Buffer) returns (r: Result<Option<Buffer>>)
      modifies this, table
      ensures running == old(running) && (!running ==> r == Ok(None) && View() == old(View()))
      ensures running ==> match R.OnUpdateBufferShipped(old(View()), me, b)
                          case Ok(h) => r == Ok(h.forward) && View() == h.state
                          case Fatal(c) => r == Fatal(c)
    {
      if !running {
        return Ok(None);
      }
      if b.ranges - {me} == map[] {
        return Ok(None);
      }
      var received := b;
      if me in b.ranges {
        var rest := CancelShipped(b);
        match rest {
          case Fatal(c) => return Fatal(c);
          case Ok(updates) => received := Buffer(updates, b.ranges - {me});
        }
      }
      table.Apply(received.updates);
      r := Ok(Some(received));
    }

    // The application's signal: own batches still queued are destroyed.
    method Terminate()
      modifies this
      ensures !running && View() == old(View()).(queue := [])
    {
      running := false;
      while queue != []
        invariant !running
        decreases |queue|
      {
        queue := queue[1..];
      }
    }
  }
}
