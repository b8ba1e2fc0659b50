/** Where an update buffer keeps its header, its node-range slots and its updates, all as offsets from its first byte. */
module Layout {
  import opened Bytes
  import opened Slots

  datatype Entry = Entry(key: int64, delta: seq<byte>)

  // The header: eleven 4-byte fields, by their byte offsets.
  const BUFF_SIZE: nat := 0
  const UPDATE_SIZE: nat := 4
  const UPDATE_CAPACITY: nat := 8
  const RANGE_CAPACITY: nat := 12
  const NUM_UPDATES: nat := 16
  const RANGE_ST: nat := 20
  const NUM_NODES: nat := 24
  const UPDATE_ST: nat := 28
  const UPDATE_END: nat := 32
  const UPDATE_ITER: nat := 36
  const RANGE_ITER: nat := 40
  const HEADER: nat := 44

  const SLOT: nat := 20

  // The offset reached from `st` in j strides.
  function Pos(st: int, stride: int, j: nat): int {
    if j == 0 then st else Pos(st, stride, j - 1) + stride
  }

  lemma {:induction false} PosMonotone(st: int, stride: nat, i: nat, j: nat)
    requires i <= j
    ensures Pos(st, stride, i) <= Pos(st, stride, j) && (i < j ==> Pos(st, stride, i) + stride <= Pos(st, stride, j))
    decreases j
  {
    if i < j {
      PosMonotone(st, stride, i, j - 1);
    }
  }

  lemma {:induction false} PosIs(st: int, stride: int, j: nat)
    ensures Pos(st, stride, j) == st + j * stride
  {
    if j > 0 {
      PosIs(st, stride, j - 1);
      assert j * stride == (j - 1) * stride + stride;
    }
  }

  // The bytes a buffer needs, as an unbounded integer.
  function Size(updateSize: int, updateCapacity: int, rangeCapacity: int): int {
    rangeCapacity * 20 + updateCapacity * (8 + updateSize) + 44
  }

  function Header(m: seq<byte>, field: nat): int32
    requires HEADER <= |m| && field + 4 <= HEADER
  {
    Read32(m, field)
  }

  ghost predicate Valid(m: seq<byte>): (valid: bool)
    ensures valid ==> HEADER <= |m|
  {
    && HEADER <= |m| == Header(m, BUFF_SIZE)
    && 0 <= Header(m, UPDATE_SIZE)
    && 0 <= Header(m, RANGE_CAPACITY)
    && 0 <= Header(m, NUM_UPDATES) <= Header(m, UPDATE_CAPACITY)
    && Header(m, RANGE_ST) == HEADER
    && Header(m, UPDATE_ST) == HEADER + SLOT * Header(m, RANGE_CAPACITY)
    && Header(m, UPDATE_END) == Pos(Header(m, UPDATE_ST), 8 + Header(m, UPDATE_SIZE), Header(m, NUM_UPDATES))
    && |m| == Pos(Header(m, UPDATE_ST), 8 + Header(m, UPDATE_SIZE), Header(m, UPDATE_CAPACITY))
    && (Header(m, NUM_UPDATES) == 0 ==> Header(m, UPDATE_ITER) == Header(m, UPDATE_ST))
  }

  // Where update j is or would be: always inside the buffer, and after the slots.
  function UpdatePos(m: seq<byte>, j: nat): (p: nat)
    requires Valid(m) && j < Header(m, UPDATE_CAPACITY)
    ensures p == Pos(Header(m, UPDATE_ST), 8 + Header(m, UPDATE_SIZE), j)
    ensures Header(m, UPDATE_ST) <= p && p + 8 + Header(m, UPDATE_SIZE) <= |m|
  {
    var st, stride := Header(m, UPDATE_ST), 8 + Header(m, UPDATE_SIZE);
    PosMonotone(st, stride, 0, j);
    PosMonotone(st, stride, j, Header(m, UPDATE_CAPACITY));
    Pos(st, stride, j)
  }

  function EntryAt(m: seq<byte>, p: nat, size: nat): Entry
    requires p + 8 + size <= |m|
  {
    Entry(Read64(m, p), m[p + 8..p + 8 + size])
  }

  // The updates in the order they were appended.
  ghost function List(m: seq<byte>): (list: seq<Entry>)
    requires Valid(m)
    ensures |list| == Header(m, NUM_UPDATES)
  {
    seq(Header(m, NUM_UPDATES), j requires 0 <= j < Header(m, NUM_UPDATES) =>
      EntryAt(m, UpdatePos(m, j), Header(m, UPDATE_SIZE)))
  }

  function SlotPos(j: nat): nat {
    HEADER + SLOT * j
  }

  function SlotAt(m: seq<byte>, p: nat): Slot
    requires p + SLOT <= |m|
  {
    Slot(Read32(m, p), Read64(m, p + 4), Read64(m, p + 12))
  }

  lemma SlotInside(m: seq<byte>, j: nat)
    requires Valid(m) && j < Header(m, RANGE_CAPACITY)
    ensures SlotPos(j) + SLOT <= Header(m, UPDATE_ST) <= |m|
  {
    PosMonotone(Header(m, UPDATE_ST), 8 + Header(m, UPDATE_SIZE), 0, Header(m, UPDATE_CAPACITY));
  }

  // The node-range table.
  ghost function Ranges(m: seq<byte>): (slots: seq<Slot>)
    requires Valid(m)
    ensures |slots| == Header(m, RANGE_CAPACITY)
  {
    seq(Header(m, RANGE_CAPACITY), j requires 0 <= j < Header(m, RANGE_CAPACITY) =>
      SlotInside(m, j);
      SlotAt(m, SlotPos(j)))
  }

  // Reading the parts of slot j.
  lemma SlotParts(m: seq<byte>, j: nat)
    requires Valid(m) && j < Header(m, RANGE_CAPACITY)
    ensures var p := SlotPos(j);
            p + SLOT <= |m| && Ranges(m)[j] == Slot(Read32(m, p), Read64(m, p + 4), Read64(m, p + 12))
  {
    hide Read32, Read64;
    SlotInside(m, j);
  }

  // Everything a caller can see, and what must not change when something else is written.
  ghost predicate SameHeader(m: seq<byte>, n: seq<byte>, except: set<nat>)
    requires HEADER <= |m| && HEADER <= |n|
  {
    forall field: nat | field + 4 <= HEADER && field % 4 == 0 && field !in except :: Header(n, field) == Header(m, field)
  }

  // The update iterator stands before update i.
  ghost predicate AtUpdate(m: seq<byte>, i: nat)
    requires Valid(m)
  {
    i <= Header(m, NUM_UPDATES) && Header(m, UPDATE_ITER) == Pos(Header(m, UPDATE_ST), 8 + Header(m, UPDATE_SIZE), i)
  }

  // The node-range iterator stands before slot i.
  ghost predicate AtSlot(m: seq<byte>, i: nat)
    requires Valid(m)
  {
    i <= Header(m, RANGE_CAPACITY) && Header(m, RANGE_ITER) == SlotPos(i)
  }

  // The iterator is inside the table exactly when it stands before a slot.
  lemma AtSlotBound(m: seq<byte>, i: nat)
    requires Valid(m) && AtSlot(m, i)
    ensures Header(m, RANGE_ITER) < Header(m, UPDATE_ST) <==> i < |Ranges(m)|
    ensures i <= |Ranges(m)|
  {}

  // ---- the format, byte by byte ----

  // The whole of a buffer in terms of byte offsets: the header's eleven fields, then 20 bytes for each slot, then the updates,
  // each 8 bytes longer than its delta.
  lemma HeaderFormat(m: seq<byte>)
    requires Valid(m)
    ensures |m| >= 44 && Read32(m, 0) == |m| && Read32(m, 12) == |Ranges(m)| && Read32(m, 16) == |List(m)| <= Read32(m, 8)
    ensures Read32(m, 20) == 44 && Read32(m, 28) == 44 + 20 * |Ranges(m)|
    ensures Read32(m, 32) == 44 + 20 * |Ranges(m)| + |List(m)| * (8 + Read32(m, 4))
    ensures |m| == 44 + 20 * |Ranges(m)| + Read32(m, 8) * (8 + Read32(m, 4))
  {
    hide Read32, Pos;
    var st, stride := Header(m, UPDATE_ST), 8 + Header(m, UPDATE_SIZE);
    PosIs(st, stride, Header(m, NUM_UPDATES));
    PosIs(st, stride, Header(m, UPDATE_CAPACITY));
  }

  lemma UpdateIteratorFormat(m: seq<byte>, i: nat)
    requires Valid(m) && AtUpdate(m, i)
    ensures Read32(m, 36) == 44 + 20 * |Ranges(m)| + i * (8 + Read32(m, 4))
  {
    hide Read32, Pos;
    PosIs(Header(m, UPDATE_ST), 8 + Header(m, UPDATE_SIZE), i);
  }

  lemma SlotIteratorFormat(m: seq<byte>, i: nat)
    requires Valid(m) && AtSlot(m, i)
    ensures Read32(m, 40) == 44 + 20 * i
  {
    hide Read32, Pos;
  }

  // A slot is the node's id and the first and the last sequence number.
  lemma SlotFormat(m: seq<byte>, j: nat)
    requires Valid(m) && j < |Ranges(m)|
    ensures var p := 44 + 20 * j;
            p + 20 <= |m| && Ranges(m)[j] == Slot(ToInt32(m[p..p + 4]), ToInt64(m[p + 4..p + 12]), ToInt64(m[p + 12..p + 20]))
  {
    hide ToInt32, ToInt64;
    SlotParts(m, j);
  }

  // An update is the key and the bytes of the delta.
  lemma UpdateFormat(m: seq<byte>, j: nat)
    requires Valid(m) && j < |List(m)|
    ensures var size, p := Read32(m, 4), 44 + 20 * |Ranges(m)| + j * (8 + Read32(m, 4));
            && 0 <= size && 44 <= p && p + 8 + size <= |m|
            && List(m)[j] == Entry(ToInt64(m[p..p + 8]), m[p + 8..p + 8 + size])
  {
    hide ToInt64, Read32, Pos;
    PosIs(Header(m, UPDATE_ST), 8 + Header(m, UPDATE_SIZE), j);
    var p := UpdatePos(m, j);
  }

  // ---- what a write leaves alone ----

  // Writing one header field changes that field only.
  lemma WriteHeader(m: seq<byte>, field: nat, v: int32)
    requires HEADER <= |m| && field + 4 <= HEADER && field % 4 == 0
    ensures var n := Write(m, field, OfInt32(v));
            |n| == |m| && Header(n, field) == v && SameHeader(m, n, {field}) && SameOutside(m, n, field, field + 4)
  {
    hide OfInt32, ToInt32, Write;
    var n := Write(m, field, OfInt32(v));
    Write32(m, field, v);
    forall f: nat | f + 4 <= HEADER && f % 4 == 0 && f != field ensures Header(n, f) == Header(m, f) {
      SliceSame(m, n, field, field + 4, f, f + 4);
    }
  }

  lemma HeaderSame(m: seq<byte>, n: seq<byte>, lo: int, hi: int)
    requires HEADER <= |m| && SameOutside(m, n, lo, hi) && HEADER <= lo
    ensures SameHeader(m, n, {})
  {
    hide ToInt32;
    forall f: nat | f + 4 <= HEADER && f % 4 == 0 ensures Header(n, f) == Header(m, f) {
      SliceSame(m, n, lo, hi, f, f + 4);
    }
  }

  lemma SlotSame(m: seq<byte>, n: seq<byte>, lo: int, hi: int, p: nat)
    requires p + SLOT <= |m| && SameOutside(m, n, lo, hi) && (p + SLOT <= lo || hi <= p)
    ensures SlotAt(n, p) == SlotAt(m, p)
  {
    hide ToInt32, ToInt64;
    SliceSame(m, n, lo, hi, p, p + 4);
    SliceSame(m, n, lo, hi, p + 4, p + 12);
    SliceSame(m, n, lo, hi, p + 12, p + 20);
  }

  lemma EntrySame(m: seq<byte>, n: seq<byte>, lo: int, hi: int, p: nat, size: nat)
    requires p + 8 + size <= |m| && SameOutside(m, n, lo, hi) && (p + 8 + size <= lo || hi <= p)
    ensures EntryAt(n, p, size) == EntryAt(m, p, size)
  {
    hide ToInt64;
    SliceSame(m, n, lo, hi, p, p + 8);
    SliceSame(m, n, lo, hi, p + 8, p + 8 + size);
  }

  // The fields that fix the shape of a buffer.
  ghost predicate SameShape(m: seq<byte>, n: seq<byte>)
    requires HEADER <= |m| && HEADER <= |n|
  {
    && |m| == |n|
    && Header(n, BUFF_SIZE) == Header(m, BUFF_SIZE)
    && Header(n, UPDATE_SIZE) == Header(m, UPDATE_SIZE)
    && Header(n, UPDATE_CAPACITY) == Header(m, UPDATE_CAPACITY)
    && Header(n, RANGE_CAPACITY) == Header(m, RANGE_CAPACITY)
    && Header(n, RANGE_ST) == Header(m, RANGE_ST)
    && Header(n, UPDATE_ST) == Header(m, UPDATE_ST)
  }

  // Moving an iterator changes nothing else.
  lemma IteratorMoved(m: seq<byte>, n: seq<byte>)
    requires Valid(m) && |m| == |n| && SameOutside(m, n, 0, HEADER) && SameHeader(m, n, {UPDATE_ITER, RANGE_ITER})
    requires Header(m, NUM_UPDATES) == 0 ==> Header(n, UPDATE_ITER) == Header(m, UPDATE_ITER)
    ensures Valid(n) && SameShape(m, n) && List(n) == List(m) && Ranges(n) == Ranges(m)
  {
    hide Header, EntryAt, SlotAt, SameOutside;
    forall j | 0 <= j < Header(m, NUM_UPDATES) ensures List(n)[j] == List(m)[j] {
      EntrySame(m, n, 0, HEADER, UpdatePos(m, j), Header(m, UPDATE_SIZE));
    }
    forall j | 0 <= j < Header(m, RANGE_CAPACITY) ensures Ranges(n)[j] == Ranges(m)[j] {
      SlotInside(m, j);
      SlotSame(m, n, 0, HEADER, SlotPos(j));
    }
  }

  // Rewriting one update in place changes that entry of the list and nothing else.
  lemma EntryRewritten(m: seq<byte>, n: seq<byte>, j: nat)
    requires Valid(m) && |m| == |n| && j < Header(m, NUM_UPDATES)
    requires SameOutside(m, n, UpdatePos(m, j), UpdatePos(m, j) + 8 + Header(m, UPDATE_SIZE))
    ensures SameHeader(m, n, {}) && Valid(n) && SameShape(m, n) && Ranges(n) == Ranges(m)
    ensures List(n) == List(m)[j := EntryAt(n, UpdatePos(m, j), Header(m, UPDATE_SIZE))]
  {
    hide Header, EntryAt, SlotAt, SameOutside;
    var size := Header(m, UPDATE_SIZE);
    var p := UpdatePos(m, j);
    HeaderSame(m, n, p, p + 8 + size);
    forall i | 0 <= i < Header(m, NUM_UPDATES) && i != j ensures List(n)[i] == List(m)[i] {
      PosMonotone(Header(m, UPDATE_ST), 8 + size, if i < j then i else j, if i < j then j else i);
      EntrySame(m, n, p, p + 8 + size, UpdatePos(m, i), size);
    }
    forall i | 0 <= i < Header(m, RANGE_CAPACITY) ensures Ranges(n)[i] == Ranges(m)[i] {
      SlotInside(m, i);
      SlotSame(m, n, p, p + 8 + size, SlotPos(i));
    }
  }

  // Rewriting one slot in place changes that entry of the node-range table and nothing else.
  lemma SlotRewritten(m: seq<byte>, n: seq<byte>, j: nat)
    requires Valid(m) && |m| == |n| && j < Header(m, RANGE_CAPACITY)
    requires SameOutside(m, n, SlotPos(j), SlotPos(j) + SLOT)
    ensures SlotPos(j) + SLOT <= |n| && SameHeader(m, n, {}) && Valid(n) && SameShape(m, n) && List(n) == List(m)
    ensures Ranges(n) == Ranges(m)[j := SlotAt(n, SlotPos(j))]
  {
    hide Header, EntryAt, SlotAt, SameOutside;
    SlotInside(m, j);
    HeaderSame(m, n, SlotPos(j), SlotPos(j) + SLOT);
    forall i | 0 <= i < Header(m, NUM_UPDATES) ensures List(n)[i] == List(m)[i] {
      EntrySame(m, n, SlotPos(j), SlotPos(j) + SLOT, UpdatePos(m, i), Header(m, UPDATE_SIZE));
    }
    forall i | 0 <= i < Header(m, RANGE_CAPACITY) && i != j ensures Ranges(n)[i] == Ranges(m)[i] {
      SlotInside(m, i);
      SlotSame(m, n, SlotPos(j), SlotPos(j) + SLOT, SlotPos(i));
    }
  }
}
