/** The ring's buffers, which are maps, against the bytes that carry them: packing, copying and reading back. */
module Packing {
  import opened Int32
  import opened Messages
  import opened Bytes
  import opened Layout
  import opened UpdateBuffers
  import Slots
  import P = PropagatorSpec
  import T = Threads

  // The list holds the table: each key once, with its 4-byte delta.
  ghost predicate Encodes(list: seq<Entry>, t: Table) {
    && (forall j | 0 <= j < |list| ::
          |list[j].delta| == 4 && list[j].key in t && t[list[j].key] == ToInt32(list[j].delta))
    && (forall i, j | 0 <= i < j < |list| :: list[i].key != list[j].key)
    && (forall k | k in t :: FindKey(list, k) < |list|)
  }

  // The slots hold the ranges: each origin once.
  ghost predicate Names(slots: seq<Slots.Slot>, ranges: map<int, Range>) {
    && (forall o | o in ranges :: 0 <= o && Slots.Find(slots, o) < |slots|)
    && (forall j | 0 <= j < |slots| && slots[j].id >= 0 ::
          slots[j].id in ranges && ranges[slots[j].id] == Range(slots[j].st, slots[j].end))
    && (forall i, j | 0 <= i < j < |slots| && slots[i].id >= 0 :: slots[i].id != slots[j].id)
  }

  // A map restricted to the keys done so far: none at first, all at last, and one more at each turn.
  lemma RestrictEnds<V>(d: map<int, V>)
    ensures Restrict(d, {}) == map[] && Restrict(d, d.Keys) == d
  {}

  lemma ExtendNone(peers: map<int, Range>)
    ensures P.Extend(peers, map[]) == peers
  {}

  lemma PendingOne(peers: map<int, Range>, done: set<int>, o: int)
    requires o in peers && o !in done
    ensures o !in P.Pending(Restrict(peers, done))
    ensures P.Pending(Restrict(peers, done + {o}))
         == if peers[o].Empty() then P.Pending(Restrict(peers, done)) else P.Pending(Restrict(peers, done))[o := peers[o]]
  {}

  lemma PendingEnds(peers: map<int, Range>, me: int)
    ensures P.Pending(map[]) == map[] && (me !in peers ==> me !in P.Pending(peers))
  {}

  lemma NothingNamed(slots: seq<Slots.Slot>)
    requires forall j | 0 <= j < |slots| :: slots[j] == Slots.Slot(-1, -1, -1)
    ensures Names(slots, map[]) && Slots.Packed(slots) && Slots.FirstHole(slots) == 0
  {
    Slots.HoleIs(slots, 0);
  }

  lemma EncodesMore(list: seq<Entry>, t: Table, key: int64, v: Value)
    requires Encodes(list, t) && key !in t
    ensures Encodes(list + [Entry(key, OfInt32(v))], t[key := v])
  {
    hide ToInt32, OfInt32, FindKey;
    Int32RoundTrip(v);
    var more := list + [Entry(key, OfInt32(v))];
    forall k | k in t[key := v] ensures FindKey(more, k) < |more| {
      FindKeyIs(more, k, if k == key then |list| else FindKey(list, k));
    }
  }

  lemma EncodesChanged(list: seq<Entry>, t: Table, j: nat, v: Value)
    requires Encodes(list, t) && j < |list|
    ensures list[j].key in t && FindKey(list, list[j].key) == j
    ensures Encodes(list[j := Entry(list[j].key, OfInt32(v))], t[list[j].key := v])
  {
    hide ToInt32, OfInt32, FindKey;
    Int32RoundTrip(v);
    var other := list[j := Entry(list[j].key, OfInt32(v))];
    FindKeyIs(list, list[j].key, j);
    forall k | k in t ensures FindKey(other, k) < |other| {
      FindKeyIs(other, k, FindKey(list, k));
    }
  }

  lemma NamesMore(slots: seq<Slots.Slot>, ranges: map<int, Range>, s: Slots.Slot)
    requires Names(slots, ranges) && s.id >= 0 && s.id !in ranges && Slots.Packed(slots)
    requires Slots.FirstHole(slots) < |slots|
    ensures var updated := Slots.Update(slots, s);
            && updated.Some? && Names(updated.value, ranges[s.id := Range(s.st, s.end)]) && Slots.Packed(updated.value)
            && |updated.value| == |slots| && Slots.FirstHole(updated.value) == Slots.FirstHole(slots) + 1
            && LastIs(updated.value, s.id)
  {
    hide Slots.Find, Slots.FirstHole;
    var h := Slots.FirstHole(slots);
    Slots.FindIs(slots, s.id, |slots|);
    Slots.FindIs(slots, -1, h);
    Slots.UpdateKeepsPacked(slots, s);
    var updated := slots[h := s];
    forall o | o in ranges[s.id := Range(s.st, s.end)] ensures Slots.Find(updated, o) < |updated| {
      Slots.FindIs(updated, o, if o == s.id then h else Slots.Find(slots, o));
    }
  }

  // Deleting from a packed table, which leaves a hole.
  lemma NamesFewer(slots: seq<Slots.Slot>, ranges: map<int, Range>, id: int)
    requires Names(slots, ranges) && Slots.Packed(slots) && id in ranges
    ensures var updated := Slots.Delete(slots, id);
            updated.Some? && Names(updated.value, ranges - {id})
  {
    hide Slots.Find, Slots.FirstHole;
    Slots.DeleteIsMapRemove(slots, id, id);
    var k := Slots.Find(slots, id);
    var updated := slots[k := slots[k].(id := -1)];
    forall o | o in ranges - {id} ensures Slots.Find(updated, o) < |updated| {
      Slots.FindIs(updated, o, Slots.Find(slots, o));
    }
  }

  ghost predicate Fits(store: Table, ranges: map<int, Range>) {
    && (forall k | k in store :: -0x8000_0000_0000_0000 <= k < 0x8000_0000_0000_0000)
    && (forall o | o in ranges ::
          && 0 <= o < 0x8000_0000
          && -0x8000_0000_0000_0000 <= ranges[o].st < 0x8000_0000_0000_0000
          && -0x8000_0000_0000_0000 <= ranges[o].end < 0x8000_0000_0000_0000)
  }

  method PackUpdates(u: UpdateBuffer, store: Table)
    requires u.Valid() && u.List() == [] && u.Field(UPDATE_SIZE) == 4 && u.Field(UPDATE_CAPACITY) == |store|
    requires Fits(store, map[])
    modifies u.mem
    ensures u.Valid() && SameShape(old(u.mem[..]), u.mem[..])
    ensures Encodes(u.List(), store) && u.Ranges() == old(u.Ranges())
  {
    hide OfInt32, ToInt32, Header, UpdateBuffer.List, UpdateBuffer.Ranges;
    var left := store.Keys;
    ghost var done := {};
    while left != {}
      invariant u.Valid() && u.Ranges() == old(u.Ranges())
      invariant SameShape(old(u.mem[..]), u.mem[..])
      invariant left + done == store.Keys && left !! done && |u.List()| + |left| == |store|
      invariant Encodes(u.List(), Restrict(store, done))
      decreases left
    {
      T.SomeMember(left);
      var k :| k in left;
      EncodesMore(u.List(), Restrict(store, done), k, store[k]);
      var r := u.AppendUpdate(k, OfInt32(store[k]));
      assert r == 0;
      assert Restrict(store, done + {k}) == Restrict(store, done)[k := store[k]];
      left, done := left - {k}, done + {k};
    }
    assert Restrict(store, done) == store;
  }

  // The last occupied slot.
  ghost predicate LastIs(slots: seq<Slots.Slot>, id: int) {
    Slots.FirstHole(slots) > 0 && slots[Slots.FirstHole(slots) - 1].id == id
  }

  // Name one more origin, unless it has nothing pending; a free slot is left, so the update cannot fail.
  method PackRange(u: UpdateBuffer, o: int32, r: Range, ghost named: map<int, Range>)
    requires u.Valid() && Names(u.Ranges(), named) && Slots.Packed(u.Ranges())
    requires 0 <= o && o !in named && Fits(map[], map[o as int := r]) && Slots.FirstHole(u.Ranges()) < |u.Ranges()|
    modifies u.mem
    ensures u.Valid() && u.List() == old(u.List()) && |u.Ranges()| == old(|u.Ranges()|)
    ensures u.Field(UPDATE_SIZE) == old(u.Field(UPDATE_SIZE))
    ensures Names(u.Ranges(), if r.Empty() then named else named[o as int := r]) && Slots.Packed(u.Ranges())
    ensures !r.Empty() ==> LastIs(u.Ranges(), o)
    ensures Slots.FirstHole(u.Ranges()) <= old(Slots.FirstHole(u.Ranges())) + 1
  {
    hide Header, Slots.Find, Slots.FirstHole, Slots.Packed, Slots.Update, Layout.Valid, Names, UpdateBuffer.List, UpdateBuffer.Ranges;
    if r.st <= r.end {
      assert map[o as int := r][o as int] == r;
      NamesMore(u.Ranges(), named, Slots.Slot(o, r.st, r.end));
      var code := u.UpdateNodeRange(o, r.st, r.end);
      assert code == 0;
    }
  }

  method PackRanges(u: UpdateBuffer, peers: map<int, Range>, me: int32, own: Range)
    requires u.Valid() && u.Field(RANGE_CAPACITY) == |peers| + 1
    requires u.Ranges() == seq(|peers| + 1, _ => Slots.Slot(-1, -1, -1))
    requires me !in peers && Fits(map[], peers[me := own])
    modifies u.mem
    ensures u.Valid() && u.List() == old(u.List()) && Slots.Packed(u.Ranges())
    ensures u.Field(UPDATE_SIZE) == old(u.Field(UPDATE_SIZE))
    ensures Names(u.Ranges(), if own.Empty() then P.Pending(peers) else P.Pending(peers)[me := own])
    ensures !own.Empty() ==> LastIs(u.Ranges(), me)
  {
    hide Header, Slots.FirstHole, Slots.Packed, P.Pending, Restrict, Layout.Valid, SameHeader, Names, UpdateBuffer.List, UpdateBuffer.Ranges;
    NothingNamed(u.Ranges());
    RestrictEnds(peers);
    PendingEnds(peers, me);
    var left := peers.Keys;
    ghost var done := {};
    while left != {}
      invariant u.Valid() && u.List() == old(u.List()) && |u.Ranges()| == |peers| + 1
      invariant u.Field(UPDATE_SIZE) == old(u.Field(UPDATE_SIZE))
      invariant left + done == peers.Keys && left !! done && Slots.FirstHole(u.Ranges()) + |left| <= |peers|
      invariant Slots.Packed(u.Ranges()) && Names(u.Ranges(), P.Pending(Restrict(peers, done)))
      decreases left
    {
      T.SomeMember(left);
      var o :| o in left;
      assert peers[me := own][o] == peers[o];
      PendingOne(peers, done, o);
      PackRange(u, o, peers[o], P.Pending(Restrict(peers, done)));
      left, done := left - {o}, done + {o};
    }
    assert done == peers.Keys;
    assert peers[me := own][me] == own;
    PackRange(u, me, own, P.Pending(peers));
  }

  // What a flush builds: sized by what it will hold, so that no append and no range is ever refused.
  method Pack(store: Table, peers: map<int, Range>, me: int32, own: Range) returns (u: UpdateBuffer)
    requires me !in peers && Fits(store, peers[me := own])
    requires Size(4, |store|, |peers| + 1) < 0x8000_0000
    ensures fresh(u) && fresh(u.mem) && u.Valid()
    ensures u.Field(UPDATE_SIZE) == 4 && Encodes(u.List(), store) && Slots.Packed(u.Ranges())
    ensures Names(u.Ranges(), if own.Empty() then P.Pending(peers) else P.Pending(peers)[me := own])
    ensures !own.Empty() ==> LastIs(u.Ranges(), me)
  {
    hide Header;
    u := new UpdateBuffer(4, |store|, |peers| + 1);
    PackUpdates(u, store);
    PackRanges(u, peers, me, own);
  }

  // The keys of the first n updates, and the origins named by the first n slots.
  ghost function KeysUpto(list: seq<Entry>, n: nat): set<int> {
    set j | 0 <= j < n && j < |list| :: list[j].key
  }

  ghost function NodesUpto(slots: seq<Slots.Slot>, n: nat): set<int> {
    set j | 0 <= j < n && j < |slots| && slots[j].id >= 0 :: slots[j].id
  }

  lemma KeysUptoEnds(list: seq<Entry>, t: Table)
    requires Encodes(list, t)
    ensures KeysUpto(list, 0) == {} && KeysUpto(list, |list|) == t.Keys
  {
    hide FindKey, ToInt32;
    forall k | k in t ensures k in KeysUpto(list, |list|) {
      assert list[FindKey(list, k)].key == k;
    }
  }

  lemma KeysUptoNext(list: seq<Entry>, t: Table, n: nat)
    requires Encodes(list, t) && n < |list|
    ensures list[n].key in t && t[list[n].key] == ToInt32(list[n].delta) && |list[n].delta| == 4
    ensures list[n].key !in KeysUpto(list, n) && KeysUpto(list, n + 1) == KeysUpto(list, n) + {list[n].key as int}
  {
    hide FindKey, ToInt32;
  }

  lemma NodesUptoEnds(slots: seq<Slots.Slot>, ranges: map<int, Range>)
    requires Names(slots, ranges)
    ensures NodesUpto(slots, 0) == {} && NodesUpto(slots, |slots|) == ranges.Keys
  {
    hide Slots.Find;
    forall o | o in ranges ensures o in NodesUpto(slots, |slots|) {
      assert slots[Slots.Find(slots, o)].id == o;
    }
  }

  lemma NodesUptoNext(slots: seq<Slots.Slot>, ranges: map<int, Range>, n: nat)
    requires Names(slots, ranges) && n < |slots| && slots[n].id >= 0
    ensures slots[n].id in ranges && ranges[slots[n].id] == Range(slots[n].st, slots[n].end)
    ensures slots[n].id !in NodesUpto(slots, n) && NodesUpto(slots, n + 1) == NodesUpto(slots, n) + {slots[n].id as int}
  {
    hide Slots.Find;
  }

  lemma NodesUptoSkips(slots: seq<Slots.Slot>, a: nat, b: nat)
    requires a <= b <= |slots| && forall j | a <= j < b :: slots[j].id < 0
    ensures NodesUpto(slots, a) == NodesUpto(slots, b)
  {}

  // The next update of a buffer of 4-byte values, read where it lies.
  method NextDelta(u: UpdateBuffer, ghost i: nat) returns (more: bool, key: int64, delta: int32)
    requires u.Valid() && u.Field(UPDATE_SIZE) == 4 && AtUpdate(u.mem[..], i)
    requires forall e | e in u.List() :: |e.delta| == 4
    modifies u.mem
    ensures u.Valid() && u.Field(UPDATE_SIZE) == 4 && u.List() == old(u.List()) && u.Ranges() == old(u.Ranges())
    ensures more <==> i < |u.List()|
    ensures more ==> AtUpdate(u.mem[..], i + 1) && key == u.List()[i].key && delta == ToInt32(u.List()[i].delta)
  {
    hide ToInt32, Header, Layout.Valid, UpdateBuffer.List, UpdateBuffer.Ranges;
    var p;
    p, key := u.NextUpdate(i);
    more := p >= 0;
    if more {
      delta := ToInt32(u.mem[p..p + 4]);
    } else {
      delta := 0;
    }
  }

  method FirstDelta(u: UpdateBuffer) returns (more: bool, key: int64, delta: int32)
    requires u.Valid() && u.Field(UPDATE_SIZE) == 4
    requires forall e | e in u.List() :: |e.delta| == 4
    modifies u.mem
    ensures u.Valid() && u.Field(UPDATE_SIZE) == 4 && u.List() == old(u.List()) && u.Ranges() == old(u.Ranges())
    ensures more <==> u.List() != []
    ensures more ==> AtUpdate(u.mem[..], 1) && key == u.List()[0].key && delta == ToInt32(u.List()[0].delta)
  {
    hide ToInt32, Header, Layout.Valid;
    var _ := u.StartIteration();
    more, key, delta := NextDelta(u, 0);
  }

  // The loop by which both threads add every update of a buffer into a table.
  method AddUpdates(u: UpdateBuffer, table: Table, ghost t: Table) returns (r: Table)
    requires u.Valid() && u.Field(UPDATE_SIZE) == 4 && Encodes(u.List(), t)
    modifies u.mem
    ensures u.Valid() && u.List() == old(u.List()) && u.Ranges() == old(u.Ranges())
    ensures r == AddAll(table, t)
  {
    hide ToInt32, Header, AddAll, Restrict, FindKey, Layout.Valid, AddAt, KeysUpto, UpdateBuffer.List, UpdateBuffer.Ranges;
    T.AddNone(table);
    RestrictEnds(t);
    ghost var list, i: nat := u.List(), 0;
    KeysUptoEnds(list, t);
    r := table;
    var more, key, delta := FirstDelta(u);
    while more
      invariant u.Valid() && u.Field(UPDATE_SIZE) == 4 && u.List() == list && u.Ranges() == old(u.Ranges())
      invariant i <= |list| && (more <==> i < |list|)
      invariant more ==> AtUpdate(u.mem[..], i + 1) && key == list[i].key && delta == ToInt32(list[i].delta)
      invariant r == AddAll(table, Restrict(t, KeysUpto(list, i)))
      decreases |list| - i
    {
      KeysUptoNext(list, t, i);
      T.AddOne(table, t, KeysUpto(list, i), key);
      r := AddAt(r, key, delta);
      i := i + 1;
      more, key, delta := NextDelta(u, i);
    }
  }

  // The next occupied slot after position `at`, which is slot k - 1, or -1 if there is none.
  method NextRange(u: UpdateBuffer, ghost at: nat) returns (id: int32, st: int64, end: int64, ghost k: nat)
    requires u.Valid() && AtSlot(u.mem[..], at)
    modifies u.mem
    ensures u.Valid() && u.List() == old(u.List()) && u.Ranges() == old(u.Ranges())
    ensures AtSlot(u.mem[..], k) && k <= |u.Ranges()|
    ensures id >= 0 ==> at < k && u.Ranges()[k - 1] == Slots.Slot(id, st, end)
    ensures NodesUpto(u.Ranges(), at) == NodesUpto(u.Ranges(), if id >= 0 then k - 1 else |u.Ranges()|)
  {
    hide NodesUpto, Header, Layout.Valid;
    k := Slots.NextRepaired(u.Ranges(), at).0;
    id, st, end := u.NextNodeRange(at);
    NodesUptoSkips(u.Ranges(), at, if id >= 0 then k - 1 else |u.Ranges()|);
  }

  // The loop by which a propagator extends the ranges it holds by those of a buffer.
  method MergeRanges(u: UpdateBuffer, peers: map<int, Range>, ghost ranges: map<int, Range>)
    returns (ok: bool, merged: map<int, Range>)
    requires u.Valid() && Names(u.Ranges(), ranges)
    modifies u.mem
    ensures u.Valid() && u.List() == old(u.List()) && u.Ranges() == old(u.Ranges())
    ensures ok <==> P.Contiguous(peers, ranges)
    ensures ok ==> merged == P.Extend(peers, ranges)
  {
    hide Header, P.Extend, P.Contiguous, Layout.Valid, SameHeader, NodesUpto, Names, MergedUpto, UpdateBuffer.List, UpdateBuffer.Ranges;
    ghost var slots := u.Ranges();
    MergedEnds(peers, ranges, peers);
    NodesUptoEnds(slots, ranges);
    merged := peers;
    u.StartNodeRangeIteration();
    ghost var k: nat;
    var id, st, end;
    id, st, end, k := NextRange(u, 0);
    while id >= 0
      invariant u.Valid() && u.List() == old(u.List()) && u.Ranges() == slots
      invariant AtSlot(u.mem[..], k) && k <= |slots|
      invariant id >= 0 ==> 0 < k && slots[k - 1] == Slots.Slot(id, st, end)
      invariant MergedUpto(peers, ranges, NodesUpto(slots, if id >= 0 then k - 1 else |slots|), merged)
      decreases if id >= 0 then |slots| - k + 1 else 0
    {
      NodesUptoNext(slots, ranges, k - 1);
      MergeNext(peers, ranges, NodesUpto(slots, k - 1), merged, id);
      if id !in merged {
        merged := merged[id as int := Range(st, end)];
      } else if merged[id].end + 1 != st {
        return false, merged;
      } else {
        merged := merged[id as int := Range(merged[id].st, end)];
      }
      id, st, end, k := NextRange(u, k);
    }
    MergedEnds(peers, ranges, merged);
    ok := true;
  }

  // As shipped: the iteration ends at the first free slot, so that only the origins before it are merged.
  method MergeRangesShipped(u: UpdateBuffer, peers: map<int, Range>, ghost ranges: map<int, Range>)
    returns (ok: bool, merged: map<int, Range>)
    requires u.Valid() && Names(u.Ranges(), ranges)
    modifies u.mem
    ensures u.Valid() && u.List() == old(u.List()) && u.Ranges() == old(u.Ranges())
    ensures var seen := Restrict(ranges, NodesUpto(u.Ranges(), Slots.FirstHole(u.Ranges())));
            (ok <==> P.Contiguous(peers, seen)) && (ok ==> merged == P.Extend(peers, seen))
  {
    hide Header, P.Extend, P.Contiguous, Restrict, Layout.Valid, SameHeader, NodesUpto, Names, MergedUpto, Slots.FirstHole;
    hide UpdateBuffer.List, UpdateBuffer.Ranges;
    ghost var slots := u.Ranges();
    ghost var hole := Slots.FirstHole(slots);
    ghost var seen := Restrict(ranges, NodesUpto(slots, hole));
    SeenKeys(slots, ranges, hole);
    MergedEnds(peers, seen, peers);
    NodesUptoEnds(slots, ranges);
    merged := peers;
    ghost var k: nat := 0;
    u.StartNodeRangeIteration();
    var id, st, end := u.NextNodeRangeShipped(0);
    while id >= 0
      invariant u.Valid() && u.List() == old(u.List()) && u.Ranges() == slots
      invariant k <= hole <= |slots| && (id >= 0 <==> k < hole)
      invariant id >= 0 ==> slots[k] == Slots.Slot(id, st, end) && AtSlot(u.mem[..], k + 1)
      invariant MergedUpto(peers, seen, NodesUpto(slots, k), merged)
      decreases hole - k
    {
      NodesUptoNext(slots, ranges, k);
      SeenOne(slots, ranges, hole, k);
      MergeNext(peers, seen, NodesUpto(slots, k), merged, id);
      if id !in merged {
        merged := merged[id as int := Range(st, end)];
      } else if merged[id].end + 1 != st {
        return false, merged;
      } else {
        merged := merged[id as int := Range(merged[id].st, end)];
      }
      k := k + 1;
      id, st, end := u.NextNodeRangeShipped(k);
    }
    MergedEnds(peers, seen, merged);
    ok := true;
  }

  lemma SeenKeys(slots: seq<Slots.Slot>, ranges: map<int, Range>, n: nat)
    requires Names(slots, ranges) && n <= |slots|
    ensures Restrict(ranges, NodesUpto(slots, n)).Keys == NodesUpto(slots, n)
  {}

  lemma SeenOne(slots: seq<Slots.Slot>, ranges: map<int, Range>, n: nat, k: nat)
    requires Names(slots, ranges) && k < n <= |slots| && slots[k].id >= 0
    ensures slots[k].id in Restrict(ranges, NodesUpto(slots, n))
    ensures Restrict(ranges, NodesUpto(slots, n))[slots[k].id] == Range(slots[k].st, slots[k].end)
  {}

  // The ranges of these origins have been merged, and each continued what was held.
  ghost predicate MergedUpto(peers: map<int, Range>, ranges: map<int, Range>, done: set<int>, merged: map<int, Range>) {
    && done <= ranges.Keys
    && merged == P.Extend(peers, Restrict(ranges, done))
    && forall o | o in done && o in peers :: peers[o].end + 1 == ranges[o].st
  }

  lemma MergedEnds(peers: map<int, Range>, ranges: map<int, Range>, merged: map<int, Range>)
    ensures MergedUpto(peers, ranges, {}, peers)
    ensures MergedUpto(peers, ranges, ranges.Keys, merged) ==> P.Contiguous(peers, ranges) && merged == P.Extend(peers, ranges)
  {
    RestrictEnds(ranges);
    ExtendNone(peers);
  }

  lemma MergeNext(peers: map<int, Range>, ranges: map<int, Range>, done: set<int>, merged: map<int, Range>, o: int)
    requires MergedUpto(peers, ranges, done, merged) && o in ranges && o !in done
    ensures o in merged ==> o in peers && merged[o] == peers[o]
    ensures o !in merged ==> MergedUpto(peers, ranges, done + {o}, merged[o := ranges[o]])
    ensures o in merged && merged[o].end + 1 == ranges[o].st ==>
              MergedUpto(peers, ranges, done + {o}, merged[o := Range(merged[o].st, ranges[o].end)])
    ensures o in merged && merged[o].end + 1 != ranges[o].st ==> !P.Contiguous(peers, ranges)
  {
    hide P.Extend, Restrict;
    T.ExtendOne(peers, ranges, done, o);
  }

  lemma SubtractNext(list: seq<Entry>, t: Table, d: Table, done: set<int>, key: int, delta: Value)
    requires Encodes(list, T.SubSome(t, d, done)) && key in d && d[key] == delta && key !in done
    ensures FindKey(list, key) < |list| <==> key in t
    ensures key in t ==>
              var k := FindKey(list, key);
              && |list[k].delta| == 4
              && Encodes(list[k := Entry(list[k].key, OfInt32(VSub(ToInt32(list[k].delta), delta)))],
                         T.SubSome(t, d, done + {key}))
  {
    hide ToInt32, OfInt32, FindKey, VSub;
    var now := T.SubSome(t, d, done);
    if key in t {
      var k := FindKey(list, key);
      EncodesChanged(list, now, k, VSub(ToInt32(list[k].delta), delta));
      assert T.SubSome(t, d, done + {key}) == now[key := VSub(t[key], delta)];
    }
  }

  lemma SubSomeEnds(t: Table, d: Table)
    ensures T.SubSome(t, d, {}) == t && T.SubSome(t, d, d.Keys) == SubAll(t, d)
  {
    T.SubSomeAll(t, d);
  }

  // A valid buffer of 4-byte values that holds this table.
  ghost predicate Carries(u: UpdateBuffer, t: Table): (c: bool)
    reads u.mem
    ensures c ==> u.Valid() && u.Field(UPDATE_SIZE) == 4
  {
    u.Valid() && u.Field(UPDATE_SIZE) == 4 && Encodes(u.List(), t)
  }

  lemma CarriesList(u: UpdateBuffer, t: Table)
    requires Carries(u, t)
    ensures Encodes(u.List(), t) && forall e | e in u.List() :: |e.delta| == 4
  {}

  method SubtractOne(recv: UpdateBuffer, key: int64, delta: int32, ghost d: Table, ghost t: Table, ghost done: set<int>)
    returns (found: bool)
    requires Carries(recv, T.SubSome(t, d, done)) && key in d && d[key] == delta && key !in done
    modifies recv.mem
    ensures found <==> key in t
    ensures recv.Valid() && recv.Field(UPDATE_SIZE) == 4 && recv.Ranges() == old(recv.Ranges())
    ensures found ==> Carries(recv, T.SubSome(t, d, done + {key as int}))
  {
    hide ToInt32, OfInt32, Header, T.SubSome, FindKey, Layout.Valid, Encodes, VSub;
    SubtractNext(recv.List(), t, d, done, key, delta);
    var at := recv.GetUpdate(key);
    found := at >= 0;
    if found {
      recv.Subtract(at, delta, FindKey(recv.List(), key));
    }
  }

  // One turn of the dedup loop on bytes: the batch's deltas are subtracted where they lie in the received buffer. It fails
  // exactly when a key of the batch is missing there.
  method SubtractBatch(mine: UpdateBuffer, recv: UpdateBuffer, ghost d: Table, ghost t: Table) returns (found: bool)
    requires mine.mem != recv.mem && Carries(mine, d) && Carries(recv, t)
    modifies mine.mem, recv.mem
    ensures found <==> d.Keys <= t.Keys
    ensures recv.Valid() && recv.Ranges() == old(recv.Ranges())
    ensures found ==> Carries(recv, SubAll(t, d))
  {
    hide ToInt32, Header, SubAll, T.SubSome, Layout.Valid, KeysUpto, Encodes, Carries, SameHeader, AtUpdate;
    hide UpdateBuffer.List, UpdateBuffer.Ranges, UpdateBuffer.Field;
    ghost var list, slots, i: nat := mine.List(), recv.Ranges(), 0;
    CarriesList(mine, d);
    KeysUptoEnds(list, d);
    SubSomeEnds(t, d);
    var more, key, delta := FirstDelta(mine);
    found := true;
    while more && found
      invariant mine.Valid() && mine.Field(UPDATE_SIZE) == 4 && mine.List() == list
      invariant i <= |list| && (more <==> i < |list|)
      invariant more ==> AtUpdate(mine.mem[..], i + 1) && key == list[i].key && delta == ToInt32(list[i].delta)
      invariant recv.Valid() && recv.Ranges() == slots
      invariant if found then KeysUpto(list, i) <= t.Keys && Carries(recv, T.SubSome(t, d, KeysUpto(list, i)))
                else !(d.Keys <= t.Keys)
      decreases |list| - i + if found then 1 else 0
    {
      KeysUptoNext(list, d, i);
      found := SubtractOne(recv, key, delta, d, t, KeysUpto(list, i));
      if found {
        i := i + 1;
        more, key, delta := NextDelta(mine, i);
      }
    }
  }

  // A flush on one node, the bytes across the network, and the merge on the next node: together they do to the receiving
  // propagator what the ring's step does with the buffer as a pair of maps.
  method FlushThenMerge(store: Table, peers: map<int, Range>, me: int32, own: Range, to: P.State) returns (r: Result<P.State>)
    requires me !in peers && Fits(store, peers[me := own])
    requires Size(4, |store|, |peers| + 1) < 0x8000_0000
    ensures var ranges := if own.Empty() then P.Pending(peers) else P.Pending(peers)[me := own];
            r == P.OnUpdateBuffer(to, Buffer(store, ranges))
  {
    hide Header, Layout.Valid, Names, Encodes;
    ghost var ranges := if own.Empty() then P.Pending(peers) else P.Pending(peers)[me := own];
    var sent := Pack(store, peers, me, own);
    var received := new UpdateBuffer.Copy(sent.mem[..]);
    var merged := AddUpdates(received, to.store, store);
    var ok, extended := MergeRanges(received, to.peers, ranges);
    r := if ok then Ok(to.(store := merged, peers := extended)) else Fatal(RangesNotContiguous);
  }

  // The merge as shipped, on bytes: every update is added, and of the ranges those in front of the first free slot.
  method MergeShipped(u: UpdateBuffer, to: P.State, ghost t: Table, ghost ranges: map<int, Range>) returns (r: Result<P.State>)
    requires u.Valid() && u.Field(UPDATE_SIZE) == 4 && Encodes(u.List(), t) && Names(u.Ranges(), ranges)
    modifies u.mem
    ensures u.Valid() && u.List() == old(u.List()) && u.Ranges() == old(u.Ranges())
    ensures r == P.OnUpdateBufferSeen(to, Buffer(t, ranges), NodesUpto(u.Ranges(), Slots.FirstHole(u.Ranges())))
  {
    hide Header, Layout.Valid, Names, Encodes, NodesUpto, AddAll, P.Extend, P.Contiguous;
    var merged := AddUpdates(u, to.store, t);
    var ok, extended := MergeRangesShipped(u, to.peers, ranges);
    r := if ok then Ok(to.(store := merged, peers := extended)) else Fatal(RangesNotContiguous);
  }
}
