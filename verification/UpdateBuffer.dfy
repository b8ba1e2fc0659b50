/** The update buffer as the object it is: a block of bytes whose header fields hold every position as an offset. */
module UpdateBuffers {
  import opened Int32
  import opened Bytes
  import opened Layout
  import opened Search
  import opened Slots

  // The size computed in C++: every multiplication and addition ends up reduced to 32 bits.
  function GetBuffSize(updateSize: int32, updateCapacity: int32, rangeCapacity: int32): int32 {
    Wrap(Wrap(rangeCapacity * 20) + Wrap(updateCapacity * (8 + updateSize)) + HEADER)
  }

  // The computed size is the size needed, or it has wrapped.
  lemma BuffSizeExact(updateSize: int32, updateCapacity: int32, rangeCapacity: int32)
    ensures GetBuffSize(updateSize, updateCapacity, rangeCapacity) == Wrap(Size(updateSize, updateCapacity, rangeCapacity))
    ensures 0 <= Size(updateSize, updateCapacity, rangeCapacity) ==>
              (GetBuffSize(updateSize, updateCapacity, rangeCapacity) == Size(updateSize, updateCapacity, rangeCapacity)
               <==> Size(updateSize, updateCapacity, rangeCapacity) < 0x8000_0000)
  {
    var a, b := rangeCapacity * 20, updateCapacity * (8 + updateSize);
    var i := WrapQuotient(a);
    var j := WrapQuotient(b);
    WrapShift(a + b + HEADER, i + j);
  }

  // The first entry with this key, or the number of entries.
  function FindKey(list: seq<Entry>, key: int): (k: nat)
    ensures k <= |list|
    ensures k < |list| ==> list[k].key == key
    ensures forall j | 0 <= j < k :: list[j].key != key
  {
    First(list, (e: Entry) => e.key == key)
  }

  lemma FindKeyIs(list: seq<Entry>, key: int, k: nat)
    requires k <= |list| && (k < |list| ==> list[k].key == key) && forall j | 0 <= j < k :: list[j].key != key
    ensures FindKey(list, key) == k
  {}

  class UpdateBuffer {
    const mem: array<byte>

    ghost predicate Valid()
      reads mem
    {
      Layout.Valid(mem[..])
    }

    function Field(field: nat): int32
      requires HEADER <= mem.Length && field + 4 <= HEADER
      reads mem
    {
      Header(mem[..], field)
    }

    ghost function List(): seq<Entry>
      requires Valid()
      reads mem
    {
      Layout.List(mem[..])
    }

    ghost function Ranges(): seq<Slot>
      requires Valid()
      reads mem
    {
      Layout.Ranges(mem[..])
    }

    // ---- raw stores ----

    method Store(off: nat, b: seq<byte>)
      requires off + |b| <= mem.Length
      modifies mem
      ensures mem[..] == Write(old(mem[..]), off, b)
    {
      var i := 0;
      while i < |b|
        invariant 0 <= i <= |b|
        invariant mem[..off] == old(mem[..off])
        invariant mem[off..off + i] == b[..i]
        invariant mem[off + |b|..] == old(mem[off + |b|..])
      {
        mem[off + i] := b[i];
        i := i + 1;
      }
      assert mem[..] == mem[..off] + mem[off..off + |b|] + mem[off + |b|..];
    }

    method SetField(field: nat, v: int32)
      requires HEADER <= mem.Length && field + 4 <= HEADER && field % 4 == 0
      modifies mem
      ensures Field(field) == v && SameHeader(old(mem[..]), mem[..], {field})
      ensures SameOutside(old(mem[..]), mem[..], field, field + 4)
    {
      WriteHeader(mem[..], field, v);
      Store(field, OfInt32(v));
    }

    method StoreId(p: nat, id: int32)
      requires HEADER <= p && p + SLOT <= mem.Length
      modifies mem
      ensures SlotAt(mem[..], p) == old(SlotAt(mem[..], p)).(id := id)
      ensures SameOutside(old(mem[..]), mem[..], p, p + SLOT) && SameHeader(old(mem[..]), mem[..], {})
    {
      hide ToInt32, ToInt64, OfInt32, Write;
      ghost var m0 := mem[..];
      Write32(m0, p, id);
      Store(p, OfInt32(id));
      SliceSame(m0, mem[..], p, p + 4, p + 4, p + 12);
      SliceSame(m0, mem[..], p, p + 4, p + 12, p + 20);
      HeaderSame(m0, mem[..], p, p + SLOT);
    }

    method StoreRange(p: nat, st: int64, end: int64)
      requires HEADER <= p && p + SLOT <= mem.Length
      modifies mem
      ensures SlotAt(mem[..], p) == Slot(old(SlotAt(mem[..], p).id), st, end)
      ensures SameOutside(old(mem[..]), mem[..], p, p + SLOT) && SameHeader(old(mem[..]), mem[..], {})
    {
      hide ToInt32, ToInt64, OfInt64, Write, Header;
      ghost var m0 := mem[..];
      Write64(m0, p + 4, st);
      Store(p + 4, OfInt64(st));
      ghost var m1 := mem[..];
      Write64(m1, p + 12, end);
      Store(p + 12, OfInt64(end));
      SliceSame(m0, m1, p + 4, p + 12, p, p + 4);
      SliceSame(m1, mem[..], p + 12, p + 20, p, p + 4);
      SliceSame(m1, mem[..], p + 12, p + 20, p + 4, p + 12);
      HeaderSame(m0, mem[..], p, p + SLOT);
    }

    method StoreSlot(p: nat, s: Slot)
      requires HEADER <= p && p + SLOT <= mem.Length
      modifies mem
      ensures SlotAt(mem[..], p) == s && SameOutside(old(mem[..]), mem[..], p, p + SLOT)
      ensures SameHeader(old(mem[..]), mem[..], {})
    {
      hide SlotAt, Header;
      StoreId(p, s.id);
      StoreRange(p, s.st, s.end);
    }

    // ---- creation ----

    // All slots free, no updates; the node-range iterator is not set.
    constructor (updateSize: int32, updateCapacity: int32, rangeCapacity: int32)
      requires 0 <= updateSize && 0 <= updateCapacity && 0 <= rangeCapacity
      requires Size(updateSize, updateCapacity, rangeCapacity) < 0x8000_0000
      ensures Valid() && fresh(mem) && mem.Length == Size(updateSize, updateCapacity, rangeCapacity)
      ensures Read32(mem[..], 4) == Field(UPDATE_SIZE) == updateSize
      ensures Read32(mem[..], 8) == Field(UPDATE_CAPACITY) == updateCapacity
      ensures List() == [] && Ranges() == seq(rangeCapacity, _ => Slot(-1, -1, -1))
      ensures AtUpdate(mem[..], 0)
    {
      BuffSizeExact(updateSize, updateCapacity, rangeCapacity);
      SizeIsPos(updateSize, updateCapacity, rangeCapacity);
      var size := GetBuffSize(updateSize, updateCapacity, rangeCapacity);
      mem := new byte[size];
      new;
      Initialize(size, updateSize, updateCapacity, rangeCapacity);
    }

    method Initialize(size: int32, updateSize: int32, updateCapacity: int32, rangeCapacity: int32)
      requires 0 <= updateSize && 0 <= updateCapacity && 0 <= rangeCapacity
      requires SlotPos(rangeCapacity) <= mem.Length == size
      requires mem.Length == Pos(SlotPos(rangeCapacity), 8 + updateSize, updateCapacity)
      modifies mem
      ensures Valid() && Field(UPDATE_SIZE) == updateSize && Field(UPDATE_CAPACITY) == updateCapacity
      ensures List() == [] && Ranges() == seq(rangeCapacity, _ => Slot(-1, -1, -1))
      ensures AtUpdate(mem[..], 0)
    {
      hide Header, SlotAt, SameOutside, Pos;
      SetSizes(size, updateSize, updateCapacity, rangeCapacity);
      FreeSlots();
      ghost var before := mem[..];
      SetPositions();
      assert Pos(SlotPos(rangeCapacity), 8 + updateSize, 0) == SlotPos(rangeCapacity) by {
        PosIs(SlotPos(rangeCapacity), 8 + updateSize, 0);
      }
      NothingYet(before, mem[..]);
    }

    method SetSizes(size: int32, updateSize: int32, updateCapacity: int32, rangeCapacity: int32)
      requires HEADER <= mem.Length
      modifies mem
      ensures Field(BUFF_SIZE) == size && Field(UPDATE_SIZE) == updateSize && Field(UPDATE_CAPACITY) == updateCapacity
      ensures Field(RANGE_CAPACITY) == rangeCapacity && Field(NUM_UPDATES) == 0 && Field(RANGE_ST) == HEADER
    {
      hide Header, SameOutside;
      SetField(BUFF_SIZE, size);
      SetField(UPDATE_SIZE, updateSize);
      SetField(UPDATE_CAPACITY, updateCapacity);
      SetField(RANGE_CAPACITY, rangeCapacity);
      SetField(NUM_UPDATES, 0);
      SetField(RANGE_ST, HEADER);
      SetField(NUM_NODES, 0);
    }

    method FreeSlots()
      requires HEADER <= mem.Length && Field(RANGE_ST) == HEADER
      requires 0 <= Field(RANGE_CAPACITY) && SlotPos(Field(RANGE_CAPACITY)) <= mem.Length
      modifies mem
      ensures SameHeader(old(mem[..]), mem[..], {})
      ensures forall j | 0 <= j < Field(RANGE_CAPACITY) :: SlotAt(mem[..], SlotPos(j)) == Slot(-1, -1, -1)
    {
      hide Header, SlotAt, SameOutside;
      var i := 0;
      var p := Field(RANGE_ST);
      while i < Field(RANGE_CAPACITY)
        invariant SameHeader(old(mem[..]), mem[..], {})
        invariant 0 <= i <= Field(RANGE_CAPACITY) && p == SlotPos(i)
        invariant forall j | 0 <= j < i :: SlotAt(mem[..], SlotPos(j)) == Slot(-1, -1, -1)
      {
        ghost var before := mem[..];
        StoreSlot(p, Slot(-1, -1, -1));
        forall j | 0 <= j < i ensures SlotAt(mem[..], SlotPos(j)) == Slot(-1, -1, -1) {
          SlotSame(before, mem[..], p, p + SLOT, SlotPos(j));
        }
        p := p + SLOT;
        i := i + 1;
      }
    }

    method SetPositions()
      requires HEADER <= mem.Length && 0 <= Field(RANGE_CAPACITY) && SlotPos(Field(RANGE_CAPACITY)) < 0x8000_0000
      modifies mem
      ensures SameHeader(old(mem[..]), mem[..], {UPDATE_ST, UPDATE_END, UPDATE_ITER})
      ensures SameOutside(old(mem[..]), mem[..], 0, HEADER)
      ensures Field(UPDATE_ST) == Field(UPDATE_END) == Field(UPDATE_ITER) == SlotPos(Field(RANGE_CAPACITY))
    {
      hide Header;
      SetField(UPDATE_ST, HEADER + SLOT * Field(RANGE_CAPACITY));
      SetField(UPDATE_END, Field(UPDATE_ST));
      SetField(UPDATE_ITER, Field(UPDATE_ST));
    }

    // ---- updates ----

    // Refused when full; otherwise the update is last in the list.
    method AppendUpdate(key: int64, update: seq<byte>) returns (r: int)
      requires Valid() && |update| == Field(UPDATE_SIZE)
      modifies mem
      ensures Valid() && SameShape(old(mem[..]), mem[..])
      ensures r == if |old(List())| == old(Field(UPDATE_CAPACITY)) then -1 else 0
      ensures r == -1 ==> mem[..] == old(mem[..])
      ensures r == 0 ==> List() == old(List()) + [Entry(key, update)]
      ensures Ranges() == old(Ranges()) && SameHeader(old(mem[..]), mem[..], {NUM_UPDATES, UPDATE_END})
    {
      if Field(NUM_UPDATES) == Field(UPDATE_CAPACITY) {
        return -1;
      }
      ghost var m0 := mem[..];
      var end := Field(UPDATE_END);
      assert end == UpdatePos(m0, Header(m0, NUM_UPDATES));
      StoreEntry(end, key, update);
      ghost var m1 := mem[..];
      SetField(UPDATE_END, end + 8 + Field(UPDATE_SIZE));
      ghost var m2 := mem[..];
      SetField(NUM_UPDATES, Field(NUM_UPDATES) + 1);
      SameTrans(m1, m2, mem[..], UPDATE_END, UPDATE_END + 4, NUM_UPDATES, NUM_UPDATES + 4);
      Appended(m0, m1, mem[..], key, update);
      r := 0;
    }

    method StoreEntry(p: nat, key: int64, update: seq<byte>)
      requires HEADER <= p && p + 8 + |update| <= mem.Length
      modifies mem
      ensures EntryAt(mem[..], p, |update|) == Entry(key, update)
      ensures SameOutside(old(mem[..]), mem[..], p, p + 8 + |update|)
      ensures SameHeader(old(mem[..]), mem[..], {})
    {
      hide ToInt64, OfInt64, Write, Read64, Header;
      ghost var m0 := mem[..];
      Write64(m0, p, key);
      Store(p, OfInt64(key));
      ghost var m1 := mem[..];
      WriteSame(m1, p + 8, update);
      Store(p + 8, update);
      ghost var m2 := mem[..];
      EntryStored(m0, m1, m2, p, key, update);
      HeaderSame(m0, m2, p, p + 8 + |update|);
    }

    // Moving an iterator changes that header field and nothing a reader sees.
    method MoveIterator(field: nat, v: int32)
      requires Valid() && (field == RANGE_ITER || (field == UPDATE_ITER && (Field(NUM_UPDATES) == 0 ==> v == Field(UPDATE_ST))))
      modifies mem
      ensures Valid() && List() == old(List()) && Ranges() == old(Ranges())
      ensures Field(field) == v && SameHeader(old(mem[..]), mem[..], {field}) && SameShape(old(mem[..]), mem[..])
    {
      hide Read32, Pos;
      ghost var m := mem[..];
      SetField(field, v);
      IteratorMoved(m, mem[..]);
    }

    // Back to the first update; the result only tells whether there is one.
    method StartIteration() returns (r: int)
      requires Valid()
      modifies mem
      ensures Valid() && List() == old(List()) && Ranges() == old(Ranges())
      ensures SameHeader(old(mem[..]), mem[..], {UPDATE_ITER})
      ensures AtUpdate(mem[..], 0) && r == if List() == [] then -1 else 0
    {
      if Field(NUM_UPDATES) == 0 {
        return -1;
      }
      hide Header;
      MoveIterator(UPDATE_ITER, Field(UPDATE_ST));
      r := 0;
    }

    // The update the iterator stands before, as its key and the offset of its delta; -1 at the end.
    method NextUpdate(ghost i: nat) returns (p: int, key: int64)
      requires Valid() && AtUpdate(mem[..], i)
      modifies mem
      ensures Valid() && List() == old(List()) && Ranges() == old(Ranges())
      ensures SameHeader(old(mem[..]), mem[..], {UPDATE_ITER})
      ensures if i < |List()| then
                && p == UpdatePos(mem[..], i) + 8 && key == List()[i].key
                && mem[p..p + Field(UPDATE_SIZE)] == List()[i].delta
                && AtUpdate(mem[..], i + 1)
              else
                p == -1 && mem[..] == old(mem[..])
    {
      hide Read32, Read64, SameOutside;
      ghost var m := mem[..];
      PosMonotone(Field(UPDATE_ST), 8 + Field(UPDATE_SIZE), i, Field(NUM_UPDATES));
      if Field(UPDATE_ITER) >= Field(UPDATE_END) {
        return -1, 0;
      }
      var at := Field(UPDATE_ITER);
      assert at == UpdatePos(m, i);
      key := Read64(mem[..], at);
      p := at + 8;
      MoveIterator(UPDATE_ITER, at + 8 + Field(UPDATE_SIZE));
    }

    // The delta of the first update with this key, as an offset; -1 if there is none.
    method GetUpdate(key: int64) returns (p: int)
      requires Valid()
      ensures var k := FindKey(List(), key);
              p == if k < |List()| then UpdatePos(mem[..], k) + 8 else -1
    {
      var at := Field(UPDATE_ST);
      var n := 0;
      while n < Field(NUM_UPDATES)
        invariant 0 <= n <= Field(NUM_UPDATES)
        invariant at == Pos(Field(UPDATE_ST), 8 + Field(UPDATE_SIZE), n)
        invariant forall j | 0 <= j < n :: List()[j].key != key
      {
        assert at == UpdatePos(mem[..], n);
        if Read64(mem[..], at) == key {
          FindKeyIs(List(), key, n);
          return at + 8;
        }
        at := at + 8 + Field(UPDATE_SIZE);
        n := n + 1;
      }
      FindKeyIs(List(), key, n);
      p := -1;
    }

    // Subtract from a 4-byte delta where it lies.
    method Subtract(p: nat, delta: int32, ghost j: nat)
      requires Valid() && Field(UPDATE_SIZE) == 4 && j < |List()| && p == UpdatePos(mem[..], j) + 8
      modifies mem
      ensures Valid() && SameShape(old(mem[..]), mem[..])
      ensures var was := old(List())[j];
              List() == old(List())[j := Entry(was.key, OfInt32(VSub(ToInt32(was.delta), delta)))]
      ensures Ranges() == old(Ranges()) && SameHeader(old(mem[..]), mem[..], {})
    {
      hide Read32, OfInt32, Header, Pos;
      var v := VSub(Read32(mem[..], p), delta);
      Subtracted(mem[..], p, v, j);
      Store(p, OfInt32(v));
    }

    // ---- node ranges ----

    // The slot with this id, or a free one; -1 if neither exists.
    method UpdateNodeRange(id: int32, st: int64, end: int64) returns (r: int)
      requires Valid()
      modifies mem
      ensures Valid() && List() == old(List())
      ensures match Update(old(Ranges()), Slot(id, st, end))
              case Some(slots) => r == 0 && Ranges() == slots
              case None => r == -1 && mem[..] == old(mem[..])
      ensures SameHeader(old(mem[..]), mem[..], {})
    {
      hide SlotAt, Header, SameOutside, Pos;
      ghost var slots, m := Ranges(), mem[..];
      var k := FindSlot(id);
      if k < Field(RANGE_CAPACITY) {
        SlotInside(m, k);
        StoreRange(SlotPos(k), st, end);
        SlotRewritten(m, mem[..], k);
        return 0;
      }
      k := FindSlot(-1);
      if k < Field(RANGE_CAPACITY) {
        SlotInside(m, k);
        StoreSlot(SlotPos(k), Slot(id, st, end));
        SlotRewritten(m, mem[..], k);
        return 0;
      }
      r := -1;
    }

    // The search both loops of UpdateNodeRange make, and GetNodeRange.
    method FindSlot(id: int32) returns (k: nat)
      requires Valid()
      ensures k == Find(Ranges(), id)
    {
      hide Read32, Read64, Header, Pos;
      k := 0;
      var p := Field(RANGE_ST);
      while k < Field(RANGE_CAPACITY)
        invariant 0 <= k <= Field(RANGE_CAPACITY) && p == SlotPos(k)
        invariant forall j | 0 <= j < k :: Ranges()[j].id != id
      {
        SlotParts(mem[..], k);
        if Read32(mem[..], p) == id {
          break;
        }
        p := p + SLOT;
        k := k + 1;
      }
      FindIs(Ranges(), id, k);
    }

    // Gives up at the first free slot.
    method DeleteNodeRange(id: int32) returns (r: int)
      requires Valid()
      modifies mem
      ensures Valid() && List() == old(List())
      ensures match Delete(old(Ranges()), id)
              case Some(slots) => r == 0 && Ranges() == slots
              case None => r == -1 && mem[..] == old(mem[..])
      ensures SameHeader(old(mem[..]), mem[..], {})
    {
      hide Read32, Read64, Header, SameOutside, Pos, SlotAt;
      ghost var slots, m := Ranges(), mem[..];
      var k := 0;
      var p := Field(RANGE_ST);
      while k < Field(RANGE_CAPACITY)
        invariant mem[..] == m
        invariant 0 <= k <= Field(RANGE_CAPACITY) && p == SlotPos(k)
        invariant forall j | 0 <= j < k :: slots[j].id >= 0 && slots[j].id != id
      {
        SlotParts(m, k);
        var at := Read32(mem[..], p);
        if at < 0 {
          HoleIs(slots, k);
          return -1;
        }
        if at == id {
          FindIs(slots, id, k);
          StoreId(p, -1);
          SlotRewritten(m, mem[..], k);
          return 0;
        }
        p := p + SLOT;
        k := k + 1;
      }
      FindIs(slots, id, k);
      r := -1;
    }

    method GetNodeRange(id: int32) returns (found: bool, st: int64, end: int64)
      requires Valid()
      ensures match Lookup(Ranges(), id)
              case Some(s) => found && s == Slot(id, st, end)
              case None => !found
    {
      hide Read32, Read64, Header, Pos;
      var k := FindSlot(id);
      if k < Field(RANGE_CAPACITY) {
        SlotParts(mem[..], k);
        var p := SlotPos(k);
        return true, Read64(mem[..], p + 4), Read64(mem[..], p + 12);
      }
      return false, 0, 0;
    }

    // ---- iterating over the node ranges ----

    method StartNodeRangeIteration()
      requires Valid()
      modifies mem
      ensures Valid() && List() == old(List()) && Ranges() == old(Ranges())
      ensures AtSlot(mem[..], 0) && SameHeader(old(mem[..]), mem[..], {RANGE_ITER})
    {
      hide Header;
      MoveIterator(RANGE_ITER, Field(RANGE_ST));
    }

    // As shipped. The guard of the skipping loop contradicts the test before it, so the loop never turns.
    method NextNodeRangeShipped(ghost i: nat) returns (id: int32, st: int64, end: int64)
      requires Valid() && AtSlot(mem[..], i)
      modifies mem
      ensures Valid() && List() == old(List()) && Ranges() == old(Ranges())
      ensures var (next, s) := NextShipped(old(Ranges()), i);
              AtSlot(mem[..], next) && if s.Some? then s.value == Slot(id, st, end) && id >= 0 else id == -1
      ensures SameHeader(old(mem[..]), mem[..], {RANGE_ITER})
    {
      if Field(RANGE_ITER) >= Field(UPDATE_ST) {
        return -1, 0, 0;
      }
      var p := Field(RANGE_ITER);
      SlotInside(mem[..], i);
      assert !(Read32(mem[..], p) < 0 && Field(RANGE_ITER) >= Field(UPDATE_ST));
      id := Read32(mem[..], p);
      if id < 0 {
        return -1, 0, 0;
      }
      st, end := TakeSlot(i);
    }

    // As repaired: skip free slots, testing the bound before every read.
    method NextNodeRange(ghost i: nat) returns (id: int32, st: int64, end: int64)
      requires Valid() && AtSlot(mem[..], i)
      modifies mem
      ensures Valid() && List() == old(List()) && Ranges() == old(Ranges())
      ensures var (next, s) := NextRepaired(old(Ranges()), i);
              AtSlot(mem[..], next) && if s.Some? then s.value == Slot(id, st, end) && id >= 0 else id == -1
      ensures SameHeader(old(mem[..]), mem[..], {RANGE_ITER})
    {
      hide Header, Layout.Valid, NextRepaired, List, Ranges;
      ghost var k := i;
      ghost var slots := Ranges();
      InTable(k);
      while Field(RANGE_ITER) < Field(UPDATE_ST)
        invariant Valid() && List() == old(List()) && Ranges() == slots && AtSlot(mem[..], k)
        invariant Field(RANGE_ITER) < Field(UPDATE_ST) <==> k < |slots|
        invariant k <= |slots| && SameHeader(old(mem[..]), mem[..], {RANGE_ITER})
        invariant NextRepaired(slots, k) == NextRepaired(slots, i)
        decreases |slots| - k
      {
        NextTurns(slots, k);
        id := SlotId(k);
        if id >= 0 {
          st, end := TakeSlot(k);
          return;
        }
        SkipSlot(k);
        k := k + 1;
      }
      NextTurns(slots, k);
      return -1, 0, 0;
    }

    lemma InTable(i: nat)
      requires Valid() && AtSlot(mem[..], i)
      ensures i <= |Ranges()| && (Field(RANGE_ITER) < Field(UPDATE_ST) <==> i < |Ranges()|)
    {
      AtSlotBound(mem[..], i);
    }

    method SlotId(ghost i: nat) returns (id: int32)
      requires Valid() && AtSlot(mem[..], i) && i < |Ranges()|
      ensures id == Ranges()[i].id
    {
      SlotParts(mem[..], i);
      id := Read32(mem[..], Field(RANGE_ITER));
    }

    method SkipSlot(ghost i: nat)
      requires Valid() && AtSlot(mem[..], i) && i < |Ranges()|
      modifies mem
      ensures Valid() && List() == old(List()) && Ranges() == old(Ranges())
      ensures AtSlot(mem[..], i + 1) && (Field(RANGE_ITER) < Field(UPDATE_ST) <==> i + 1 < |Ranges()|)
      ensures SameHeader(old(mem[..]), mem[..], {RANGE_ITER})
    {
      hide Header, Pos;
      SlotInside(mem[..], i);
      MoveIterator(RANGE_ITER, Field(RANGE_ITER) + SLOT);
      InTable(i + 1);
    }

    method TakeSlot(ghost i: nat) returns (st: int64, end: int64)
      requires Valid() && AtSlot(mem[..], i) && i < |Ranges()|
      modifies mem
      ensures Valid() && List() == old(List()) && Ranges() == old(Ranges())
      ensures st == Ranges()[i].st && end == Ranges()[i].end && AtSlot(mem[..], i + 1)
      ensures SameHeader(old(mem[..]), mem[..], {RANGE_ITER})
    {
      hide Read64, Header, Pos;
      var p := Field(RANGE_ITER);
      SlotInside(mem[..], i);
      st, end := Read64(mem[..], p + 4), Read64(mem[..], p + 12);
      MoveIterator(RANGE_ITER, p + SLOT);
    }

    // ---- moving a buffer ----

    // Into fresh memory, byte by byte, as the network and the forwarding copy do.
    constructor Copy(bytes: seq<byte>)
      requires Layout.Valid(bytes)
      ensures Valid() && fresh(mem) && mem[..] == bytes
      ensures List() == Layout.List(bytes) && Ranges() == Layout.Ranges(bytes)
    {
      mem := new byte[|bytes|];
      new;
      var i := 0;
      while i < |bytes|
        invariant 0 <= i <= |bytes| && mem[..i] == bytes[..i]
      {
        mem[i] := bytes[i];
        i := i + 1;
      }
      assert mem[..] == bytes;
    }
  }

  lemma SizeIsPos(updateSize: int, updateCapacity: nat, rangeCapacity: nat)
    requires 0 <= updateSize
    ensures Size(updateSize, updateCapacity, rangeCapacity)
            == Pos(HEADER + SLOT * rangeCapacity, 8 + updateSize, updateCapacity) >= HEADER + SLOT * rangeCapacity
  {
    PosIs(HEADER + SLOT * rangeCapacity, 8 + updateSize, updateCapacity);
    PosMonotone(HEADER + SLOT * rangeCapacity, 8 + updateSize, 0, updateCapacity);
  }

  lemma EntryStored(m0: seq<byte>, m1: seq<byte>, m2: seq<byte>, p: nat, key: int64, update: seq<byte>)
    requires p + 8 + |update| <= |m0|
    requires SameOutside(m0, m1, p, p + 8) && SameOutside(m1, m2, p + 8, p + 8 + |update|)
    requires Read64(m1, p) == key && m2[p + 8..p + 8 + |update|] == update
    ensures EntryAt(m2, p, |update|) == Entry(key, update) && SameOutside(m0, m2, p, p + 8 + |update|)
  {
    hide ToInt64;
    SliceSame(m1, m2, p + 8, p + 8 + |update|, p, p + 8);
    SameTrans(m0, m1, m2, p, p + 8, p + 8, p + 8 + |update|);
  }

  lemma NothingYet(m: seq<byte>, n: seq<byte>)
    requires HEADER <= |n| && Layout.Valid(n) && Header(n, NUM_UPDATES) == 0 && SameOutside(m, n, 0, HEADER) && |m| == |n|
    requires Header(m, RANGE_CAPACITY) == Header(n, RANGE_CAPACITY) && SlotPos(Header(m, RANGE_CAPACITY)) <= |m|
    requires forall j | 0 <= j < Header(m, RANGE_CAPACITY) :: SlotAt(m, SlotPos(j)) == Slot(-1, -1, -1)
    ensures Layout.List(n) == [] && Layout.Ranges(n) == seq(Header(n, RANGE_CAPACITY), _ => Slot(-1, -1, -1))
  {
    hide Header, SlotAt, SameOutside;
    forall j | 0 <= j < Header(n, RANGE_CAPACITY) ensures Layout.Ranges(n)[j] == Slot(-1, -1, -1) {
      SlotSame(m, n, 0, HEADER, SlotPos(j));
    }
  }

  // Overwriting the 4-byte delta of update j.
  lemma Subtracted(m: seq<byte>, p: nat, v: int32, j: nat)
    requires Layout.Valid(m) && Header(m, UPDATE_SIZE) == 4 && j < Header(m, NUM_UPDATES) && p == UpdatePos(m, j) + 8
    ensures p + 4 <= |m| && ToInt32(Layout.List(m)[j].delta) == Read32(m, p)
    ensures var n := Write(m, p, OfInt32(v));
            && Layout.Valid(n) && SameShape(m, n) && SameHeader(m, n, {}) && Layout.Ranges(n) == Layout.Ranges(m)
            && Layout.List(n) == Layout.List(m)[j := Entry(Layout.List(m)[j].key, OfInt32(v))]
  {
    hide ToInt32, ToInt64, OfInt32, Write, Header, Pos, SameOutside;
    var n := Write(m, p, OfInt32(v));
    WriteSame(m, p, OfInt32(v));
    Wider(m, n, p, p + 4, p - 8);
    SliceSame(m, n, p, p + 4, p - 8, p);
    EntryRewritten(m, n, j);
  }

  // Writing behind the last update, then counting it.
  lemma Appended(m0: seq<byte>, m1: seq<byte>, m2: seq<byte>, key: int64, update: seq<byte>)
    requires Layout.Valid(m0) && Header(m0, NUM_UPDATES) < Header(m0, UPDATE_CAPACITY)
    requires |update| == Header(m0, UPDATE_SIZE) && |m0| == |m1| == |m2|
    requires var end := Header(m0, UPDATE_END);
             && 0 <= end && end + 8 + |update| <= |m0|
             && SameOutside(m0, m1, end, end + 8 + |update|) && EntryAt(m1, end, |update|) == Entry(key, update)
             && Header(m2, UPDATE_END) == end + 8 + |update|
    requires Header(m2, NUM_UPDATES) == Header(m0, NUM_UPDATES) + 1
    requires SameOutside(m1, m2, 0, HEADER) && SameHeader(m0, m2, {UPDATE_END, NUM_UPDATES})
    ensures Layout.Valid(m2) && Layout.List(m2) == Layout.List(m0) + [Entry(key, update)]
    ensures Layout.Ranges(m2) == Layout.Ranges(m0)
  {
    hide EntryAt, SlotAt, SameOutside, Read32;
    var n, st, stride := Header(m0, NUM_UPDATES), Header(m0, UPDATE_ST), 8 + |update|;
    var end := UpdatePos(m0, n);
    forall j | 0 <= j <= n ensures Layout.List(m2)[j] == (Layout.List(m0) + [Entry(key, update)])[j] {
      if j < n {
        PosMonotone(st, stride, j, n);
        EntrySame(m0, m1, end, end + stride, UpdatePos(m0, j), |update|);
      }
      EntrySame(m1, m2, 0, HEADER, UpdatePos(m0, j), |update|);
    }
    forall j | 0 <= j < Header(m0, RANGE_CAPACITY) ensures Layout.Ranges(m2)[j] == Layout.Ranges(m0)[j] {
      SlotInside(m0, j);
      SlotSame(m0, m1, end, end + stride, SlotPos(j));
      SlotSame(m1, m2, 0, HEADER, SlotPos(j));
    }
  }
}
