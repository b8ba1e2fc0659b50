/** Cancelling own updates, for any queue: what the repaired loop pops and subtracts, and when the shipped one works. */
module Dedup {
  import opened Int32
  import opened Messages
  import opened ReceiverSpec

  // Every batch has a non-empty own range.
  ghost predicate Batched(queue: seq<Buffer>, me: int) {
    forall j | 0 <= j < |queue| :: me in queue[j].ranges && !queue[j].ranges[me].Empty()
  }

  // The batches' own ranges concatenate to the sequence numbers lo..hi-1.
  ghost predicate Concatenate(batches: seq<Buffer>, me: int, lo: int, hi: int)
    requires Batched(batches, me)
  {
    if batches == [] then lo == hi
    else batches[0].ranges[me].st == lo && Concatenate(batches[1..], me, batches[0].ranges[me].end + 1, hi)
  }

  ghost predicate KeysIn(batches: seq<Buffer>, updates: Table) {
    forall j | 0 <= j < |batches| :: batches[j].updates.Keys <= updates.Keys
  }

  // Subtract the batches one after the other.
  function SubEach(updates: Table, batches: seq<Buffer>): Table {
    if batches == [] then updates else SubEach(SubAll(updates, batches[0].updates), batches[1..])
  }

  function DeltaSum(batches: seq<Buffer>, k: int): int {
    if batches == [] then 0 else Get(batches[0].updates, k) + DeltaSum(batches[1..], k)
  }

  lemma {:induction false} ConcatenateOrder(batches: seq<Buffer>, me: int, lo: int, hi: int)
    requires Batched(batches, me) && Concatenate(batches, me, lo, hi)
    ensures lo + |batches| <= hi
    decreases |batches|
  {
    if batches != [] {
      ConcatenateOrder(batches[1..], me, batches[0].ranges[me].end + 1, hi);
    }
  }

  // Key by key, what is subtracted is the sum of the batches' deltas; keys no batch mentions keep their value.
  lemma {:induction false} SubEachGet(updates: Table, batches: seq<Buffer>, k: int)
    requires KeysIn(batches, updates)
    ensures SubEach(updates, batches).Keys == updates.Keys
    ensures Get(SubEach(updates, batches), k) == Wrap(Get(updates, k) - DeltaSum(batches, k))
    decreases |batches|
  {
    hide Wrap;
    if batches == [] {
      WrapValue(Get(updates, k));
    } else {
      var rest := SubAll(updates, batches[0].updates);
      assert batches[0].updates.Keys <= updates.Keys;
      SubAllGet(updates, batches[0].updates, k);
      SubEachGet(rest, batches[1..], k);
      WrapMinus(Get(updates, k) - Get(batches[0].updates, k), DeltaSum(batches[1..], k));
    }
  }

  lemma WrapMinus(x: int, y: int)
    ensures Wrap(Wrap(x) - y) == Wrap(x - y)
  {}

  // ---- the repaired loop ----

  // It succeeds exactly when some queue prefix makes up the received range with its keys in the buffer; then it pops that
  // prefix and subtracts it.
  lemma {:induction false} CancelPops(queue: seq<Buffer>, updates: Table, me: int, recv: Range, seqNum: int, m: nat)
    requires Batched(queue, me) && recv.st <= seqNum && 1 <= m <= |queue|
    requires Concatenate(queue[..m], me, seqNum, recv.end + 1) && KeysIn(queue[..m], updates)
    ensures Cancel(queue, updates, me, recv, seqNum) == Ok(Cancelled(queue[m..], SubEach(updates, queue[..m])))
    decreases |queue|
  {
    var front := queue[0];
    var mine := front.ranges[me];
    assert queue[..m][0] == front && queue[..m][1..] == queue[1..][..m - 1];
    ConcatenateOrder(queue[..m][1..], me, mine.end + 1, recv.end + 1);
    var rest := SubAll(updates, front.updates);
    if m > 1 {
      var others := queue[1..][..m - 1];
      forall j | 0 <= j < |others| ensures others[j].updates.Keys <= rest.Keys {
        assert queue[..m][j + 1].updates.Keys <= updates.Keys;
      }
      CancelPops(queue[1..], rest, me, recv, mine.end + 1, m - 1);
      assert queue[1..][m - 1..] == queue[m..];
    } else {
      assert mine.end + 1 == recv.end + 1;
    }
  }

  lemma FrontContained(queue: seq<Buffer>, updates: Table, me: int, recv: Range, seqNum: int)
    requires Cancel(queue, updates, me, recv, seqNum).Ok?
    ensures queue != [] && me in queue[0].ranges && recv.Contains(queue[0].ranges[me]) && queue[0].ranges[me].st == seqNum
  {}

  lemma {:induction false} CancelNeeds(queue: seq<Buffer>, updates: Table, me: int, recv: Range, seqNum: int) returns (m: nat)
    requires Batched(queue, me) && Cancel(queue, updates, me, recv, seqNum).Ok?
    ensures 1 <= m <= |queue| && Concatenate(queue[..m], me, seqNum, recv.end + 1) && KeysIn(queue[..m], updates)
    decreases |queue|
  {
    var front := queue[0];
    var mine := front.ranges[me];
    var rest := SubAll(updates, front.updates);
    if mine.end + 1 <= recv.end {
      var l := CancelNeeds(queue[1..], rest, me, recv, mine.end + 1);
      m := l + 1;
      assert queue[..m][1..] == queue[1..][..l];
      forall j | 0 <= j < m ensures queue[..m][j].updates.Keys <= updates.Keys {
        if j > 0 {
          assert queue[1..][..l][j - 1] == queue[j];
        }
      }
    } else {
      m := 1;
      assert queue[..1][1..] == [];
    }
  }

  lemma RepairedLoop(queue: seq<Buffer>, updates: Table, me: int, recv: Range)
    requires Batched(queue, me)
    ensures Cancel(queue, updates, me, recv, recv.st).Ok?
       <==> exists m: nat :: 1 <= m <= |queue| && Concatenate(queue[..m], me, recv.st, recv.end + 1) && KeysIn(queue[..m], updates)
    ensures forall m: nat | 1 <= m <= |queue| && Concatenate(queue[..m], me, recv.st, recv.end + 1) && KeysIn(queue[..m], updates) ::
              Cancel(queue, updates, me, recv, recv.st) == Ok(Cancelled(queue[m..], SubEach(updates, queue[..m])))
  {
    forall m: nat | 1 <= m <= |queue| && Concatenate(queue[..m], me, recv.st, recv.end + 1) && KeysIn(queue[..m], updates)
      ensures Cancel(queue, updates, me, recv, recv.st) == Ok(Cancelled(queue[m..], SubEach(updates, queue[..m])))
    {
      CancelPops(queue, updates, me, recv, recv.st, m);
    }
    if Cancel(queue, updates, me, recv, recv.st).Ok? {
      var m := CancelNeeds(queue, updates, me, recv, recv.st);
    }
  }

  // ---- the shipped loop ----

  ghost predicate InOrder(queue: seq<Buffer>, me: int)
    requires Batched(queue, me)
  {
    forall j | 0 <= j < |queue| - 1 :: queue[j + 1].ranges[me].st == queue[j].ranges[me].end + 1
  }

  // On a queue of consecutive batches it passes its checks exactly when the front batch alone is the received range.
  lemma ShippedLoop(queue: seq<Buffer>, updates: Table, me: int, recv: Range)
    requires Batched(queue, me) && InOrder(queue, me)
    ensures CancelShipped(queue, updates, me, recv, recv.st).Ok?
       <==> queue != [] && queue[0].ranges[me] == recv && queue[0].updates.Keys <= updates.Keys
    ensures CancelShipped(queue, updates, me, recv, recv.st).Ok? ==>
              CancelShipped(queue, updates, me, recv, recv.st) == Cancel(queue, updates, me, recv, recv.st)
  {}

  // A received buffer whose own range is made up of queued batches, keys included.
  ghost predicate Returned(queue: seq<Buffer>, me: int, b: Buffer)
    requires Batched(queue, me)
  {
    me in b.ranges ==>
      exists m: nat :: 1 <= m <= |queue| && Concatenate(queue[..m], me, b.ranges[me].st, b.ranges[me].end + 1) && KeysIn(queue[..m], b.updates)
  }

  lemma PopsSomething(r: State, me: int, b: Buffer)
    requires Batched(r.queue, me) && me in b.ranges && Returned(r.queue, me, b)
    ensures OnUpdateBuffer(r, me, b).Ok? && |OnUpdateBuffer(r, me, b).value.state.queue| < |r.queue|
  {
    RepairedLoop(r.queue, b.updates, me, b.ranges[me]);
  }

  // So the shipped receiver does what it should exactly when the buffer does not name it, or names somebody else as well
  // and carries exactly one own batch.
  lemma ShippedReceiver(r: State, me: int, b: Buffer)
    requires Batched(r.queue, me) && InOrder(r.queue, me) && Returned(r.queue, me, b)
    ensures OnUpdateBufferShipped(r, me, b) == OnUpdateBuffer(r, me, b)
       <==> me !in b.ranges || (b.ranges - {me} != map[] && r.queue[0].ranges[me] == b.ranges[me])
  {
    if me in b.ranges {
      PopsSomething(r, me, b);
      ShippedLoop(r.queue, b.updates, me, b.ranges[me]);
    } else {
      assert b.ranges - {me} == b.ranges;
    }
  }

  // ---- which check fails, for any queue ----

  // The cancelling loop as repaired, or as shipped.
  function Loop(shipped: bool, queue: seq<Buffer>, updates: Table, me: int, recv: Range, seqNum: int): Result<Cancelled> {
    if shipped then CancelShipped(queue, updates, me, recv, seqNum) else Cancel(queue, updates, me, recv, seqNum)
  }

  // Where the loop looks for the batch after one that ends here.
  function NextSeq(shipped: bool, end: int): int {
    if shipped then end else end + 1
  }

  // Where batch j has to start.
  function Expected(shipped: bool, queue: seq<Buffer>, me: int, seqNum: int, j: nat): int
    requires j <= |queue| && (j > 0 ==> me in queue[j - 1].ranges)
  {
    if j == 0 then seqNum else NextSeq(shipped, queue[j - 1].ranges[me].end)
  }

  // Batch j has an own range, which lies inside the received one.
  ghost predicate Inside(queue: seq<Buffer>, me: int, recv: Range, j: nat)
    requires j < |queue|
  {
    me in queue[j].ranges && recv.st <= queue[j].ranges[me].st && queue[j].ranges[me].end <= recv.end
  }

  // Batch j is in order and all its keys are in the buffer.
  ghost predicate TurnPasses(shipped: bool, queue: seq<Buffer>, updates: Table, me: int, recv: Range, seqNum: int, j: nat)
    requires j < |queue| && (j > 0 ==> me in queue[j - 1].ranges)
  {
    && Inside(queue, me, recv, j) && queue[j].ranges[me].st == Expected(shipped, queue, me, seqNum, j)
    && queue[j].updates.Keys <= updates.Keys
  }

  // The first m turns pass, and each leaves some of the received range.
  ghost predicate Passes(shipped: bool, queue: seq<Buffer>, updates: Table, me: int, recv: Range, seqNum: int, m: nat) {
    && m <= |queue|
    && (forall j | 0 <= j < m :: me in queue[j].ranges)
    && (forall j | 0 <= j < m :: TurnPasses(shipped, queue, updates, me, recv, seqNum, j) && queue[j].ranges[me].end < recv.end)
  }

  // Turn m fails, and this is why. Containment comes before order, and order before the keys.
  ghost predicate FailsAt(shipped: bool, queue: seq<Buffer>, updates: Table, me: int, recv: Range, seqNum: int, m: nat, c: Check)
    requires m <= |queue| && (m > 0 ==> me in queue[m - 1].ranges)
  {
    match c
    case OwnQueueEmpty => m == |queue|
    case BatchWithoutOwnRange => m < |queue| && me !in queue[m].ranges
    case BatchNotContained =>
      m < |queue| && me in queue[m].ranges && (queue[m].ranges[me].st < recv.st || recv.end < queue[m].ranges[me].end)
    case BatchOutOfOrder =>
      m < |queue| && Inside(queue, me, recv, m) && queue[m].ranges[me].st != Expected(shipped, queue, me, seqNum, m)
    case OwnKeyNotInBuffer =>
      && m < |queue| && Inside(queue, me, recv, m) && queue[m].ranges[me].st == Expected(shipped, queue, me, seqNum, m)
      && !(queue[m].updates.Keys <= updates.Keys)
    case _ => false
  }

  // Turn m passes and uses up the received range.
  ghost predicate EndsAt(shipped: bool, queue: seq<Buffer>, updates: Table, me: int, recv: Range, seqNum: int, m: nat): (e: bool)
    requires m <= |queue| && (m > 0 ==> me in queue[m - 1].ranges)
    ensures e ==> m < |queue|
  {
    m < |queue| && TurnPasses(shipped, queue, updates, me, recv, seqNum, m) && queue[m].ranges[me].end >= recv.end
  }

  lemma LoopTurns(shipped: bool, q: seq<Buffer>, i: nat, t: Table, me: int, recv: Range, seqNum: int)
    requires i <= |q|
    ensures i == |q| ==> Loop(shipped, q[i..], t, me, recv, seqNum) == Fatal(OwnQueueEmpty)
    ensures i < |q| ==>
              Loop(shipped, q[i..], t, me, recv, seqNum)
              == match CheckFront([q[i]], me, recv, seqNum)
                 case Fatal(c) => Fatal(c)
                 case Ok(mine) =>
                   var next := NextSeq(shipped, mine.end);
                   if !(q[i].updates.Keys <= t.Keys) then Fatal(OwnKeyNotInBuffer)
                   else if mine.end < recv.end then Loop(shipped, q[i + 1..], SubAll(t, q[i].updates), me, recv, next)
                   else Ok(Cancelled(q[i + 1..], SubAll(t, q[i].updates)))
  {
    if i < |q| {
      assert q[i..][1..] == q[i + 1..];
    }
  }

  lemma {:induction false} SubEachLast(updates: Table, batches: seq<Buffer>, b: Buffer)
    ensures SubEach(updates, batches + [b]) == SubAll(SubEach(updates, batches), b.updates)
    ensures SubEach(updates, batches).Keys == updates.Keys
    decreases |batches|
  {
    if batches == [] {
      assert (batches + [b])[1..] == [];
    } else {
      assert (batches + [b])[1..] == batches[1..] + [b];
      SubEachLast(SubAll(updates, batches[0].updates), batches[1..], b);
    }
  }

  // Turns that pass bring the loop to the batch after them.
  lemma {:induction false} Advance(shipped: bool, queue: seq<Buffer>, updates: Table, me: int, recv: Range, seqNum: int, m: nat)
    requires Passes(shipped, queue, updates, me, recv, seqNum, m)
    ensures SubEach(updates, queue[..m]).Keys == updates.Keys
    ensures Loop(shipped, queue, updates, me, recv, seqNum)
         == Loop(shipped, queue[m..], SubEach(updates, queue[..m]), me, recv, Expected(shipped, queue, me, seqNum, m))
    decreases m
  {
    hide Loop, SubAll, TurnPasses, Expected;
    if m == 0 {
      assert queue[0..] == queue && queue[..0] == [];
      assert Expected(shipped, queue, me, seqNum, 0) == seqNum by { FirstExpected(shipped, queue, me, seqNum); }
    } else {
      Advance(shipped, queue, updates, me, recv, seqNum, m - 1);
      var t, last := SubEach(updates, queue[..m - 1]), queue[m - 1];
      assert queue[..m] == queue[..m - 1] + [last];
      SubEachLast(updates, queue[..m - 1], last);
      OneTurn(shipped, queue, updates, t, me, recv, seqNum, m - 1);
      assert SubAll(t, last.updates).Keys == t.Keys by { SubKeys(t, last.updates); }
    }
  }

  lemma FirstExpected(shipped: bool, queue: seq<Buffer>, me: int, seqNum: int)
    ensures Expected(shipped, queue, me, seqNum, 0) == seqNum
  {}

  lemma SubKeys(t: Table, d: Table)
    ensures SubAll(t, d).Keys == t.Keys
  {}

  lemma OneTurn(shipped: bool, queue: seq<Buffer>, updates: Table, t: Table, me: int, recv: Range, seqNum: int, m: nat)
    requires m < |queue| && (m > 0 ==> me in queue[m - 1].ranges) && t.Keys == updates.Keys && me in queue[m].ranges
    requires TurnPasses(shipped, queue, updates, me, recv, seqNum, m) && queue[m].ranges[me].end < recv.end
    ensures Loop(shipped, queue[m..], t, me, recv, Expected(shipped, queue, me, seqNum, m))
         == Loop(shipped, queue[m + 1..], SubAll(t, queue[m].updates), me, recv, Expected(shipped, queue, me, seqNum, m + 1))
  {
    hide Loop, SubAll;
    LoopTurns(shipped, queue, m, t, me, recv, Expected(shipped, queue, me, seqNum, m));
  }

  lemma FailsThere(shipped: bool, queue: seq<Buffer>, updates: Table, me: int, recv: Range, seqNum: int, m: nat, c: Check)
    requires Passes(shipped, queue, updates, me, recv, seqNum, m) && FailsAt(shipped, queue, updates, me, recv, seqNum, m, c)
    ensures Loop(shipped, queue, updates, me, recv, seqNum) == Fatal(c)
  {
    hide Loop, SubAll, SubEach;
    Advance(shipped, queue, updates, me, recv, seqNum, m);
    LoopTurns(shipped, queue, m, SubEach(updates, queue[..m]), me, recv, Expected(shipped, queue, me, seqNum, m));
  }

  lemma EndsThere(shipped: bool, queue: seq<Buffer>, updates: Table, me: int, recv: Range, seqNum: int, m: nat)
    requires Passes(shipped, queue, updates, me, recv, seqNum, m) && EndsAt(shipped, queue, updates, me, recv, seqNum, m)
    ensures Loop(shipped, queue, updates, me, recv, seqNum) == Ok(Cancelled(queue[m + 1..], SubEach(updates, queue[..m + 1])))
  {
    hide Loop, SubAll, SubEach;
    Advance(shipped, queue, updates, me, recv, seqNum, m);
    assert queue[..m + 1] == queue[..m] + [queue[m]];
    SubEachLast(updates, queue[..m], queue[m]);
    assert queue[m].updates.Keys <= SubEach(updates, queue[..m]).Keys;
    LoopTurns(shipped, queue, m, SubEach(updates, queue[..m]), me, recv, Expected(shipped, queue, me, seqNum, m));
  }

  // Some turn fails or uses up the range.
  lemma {:induction false} SomeTurnDecides(shipped: bool, queue: seq<Buffer>, updates: Table, me: int, recv: Range, seqNum: int, m: nat)
    returns (last: nat, failed: Option<Check>)
    requires Passes(shipped, queue, updates, me, recv, seqNum, m)
    ensures Passes(shipped, queue, updates, me, recv, seqNum, last)
    ensures match failed
            case Some(c) => FailsAt(shipped, queue, updates, me, recv, seqNum, last, c)
            case None => EndsAt(shipped, queue, updates, me, recv, seqNum, last)
    decreases |queue| - m
  {
    last := m;
    if m == |queue| {
      failed := Some(OwnQueueEmpty);
    } else if me !in queue[m].ranges {
      failed := Some(BatchWithoutOwnRange);
    } else if !Inside(queue, me, recv, m) {
      failed := Some(BatchNotContained);
    } else if queue[m].ranges[me].st != Expected(shipped, queue, me, seqNum, m) {
      failed := Some(BatchOutOfOrder);
    } else if !(queue[m].updates.Keys <= updates.Keys) {
      failed := Some(OwnKeyNotInBuffer);
    } else if queue[m].ranges[me].end >= recv.end {
      failed := None;
    } else {
      last, failed := SomeTurnDecides(shipped, queue, updates, me, recv, seqNum, m + 1);
    }
  }

  // On any queue and any buffer, repaired or shipped: the loop aborts with a check exactly when after some turns that pass
  // that check is the first to fail, and else pops and subtracts exactly the batches that use up the received range.
  lemma LoopDecides(shipped: bool, queue: seq<Buffer>, updates: Table, me: int, recv: Range, seqNum: int)
    ensures forall c ::
              Loop(shipped, queue, updates, me, recv, seqNum) == Fatal(c)
              <==> exists m: nat :: Passes(shipped, queue, updates, me, recv, seqNum, m) && FailsAt(shipped, queue, updates, me, recv, seqNum, m, c)
    ensures Loop(shipped, queue, updates, me, recv, seqNum).Ok?
       <==> exists m: nat :: Passes(shipped, queue, updates, me, recv, seqNum, m) && EndsAt(shipped, queue, updates, me, recv, seqNum, m)
    ensures forall m: nat | Passes(shipped, queue, updates, me, recv, seqNum, m) && EndsAt(shipped, queue, updates, me, recv, seqNum, m) ::
              Loop(shipped, queue, updates, me, recv, seqNum) == Ok(Cancelled(queue[m + 1..], SubEach(updates, queue[..m + 1])))
  {
    hide Loop, FailsAt, EndsAt, Passes, SubEach;
    assert Passes(shipped, queue, updates, me, recv, seqNum, 0) by { NonePassed(shipped, queue, updates, me, recv, seqNum); }
    PassedOwn(shipped, queue, updates, me, recv, seqNum);
    var last, failed := SomeTurnDecides(shipped, queue, updates, me, recv, seqNum, 0);
    forall m: nat, c | Passes(shipped, queue, updates, me, recv, seqNum, m) && FailsAt(shipped, queue, updates, me, recv, seqNum, m, c)
      ensures Loop(shipped, queue, updates, me, recv, seqNum) == Fatal(c)
    {
      FailsThere(shipped, queue, updates, me, recv, seqNum, m, c);
    }
    forall m: nat | Passes(shipped, queue, updates, me, recv, seqNum, m) && EndsAt(shipped, queue, updates, me, recv, seqNum, m)
      ensures Loop(shipped, queue, updates, me, recv, seqNum) == Ok(Cancelled(queue[m + 1..], SubEach(updates, queue[..m + 1])))
    {
      EndsThere(shipped, queue, updates, me, recv, seqNum, m);
    }
  }

  lemma NonePassed(shipped: bool, queue: seq<Buffer>, updates: Table, me: int, recv: Range, seqNum: int)
    ensures Passes(shipped, queue, updates, me, recv, seqNum, 0)
  {}

  lemma PassedOwn(shipped: bool, queue: seq<Buffer>, updates: Table, me: int, recv: Range, seqNum: int)
    ensures forall m: nat | Passes(shipped, queue, updates, me, recv, seqNum, m) :: m <= |queue| && (m > 0 ==> me in queue[m - 1].ranges)
  {}
}
