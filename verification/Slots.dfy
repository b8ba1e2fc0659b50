/** The node-range table of a buffer, as a list of slots searched from the front. */
module Slots {
  import opened Bytes
  import opened Messages
  import opened Search

  datatype Slot = Slot(id: int32, st: int64, end: int64)

  // The first slot with this id, or the number of slots.
  function Find(slots: seq<Slot>, id: int): (k: nat)
    ensures k <= |slots|
    ensures k < |slots| ==> slots[k].id == id
    ensures forall j | 0 <= j < k :: slots[j].id != id
  {
    First(slots, (s: Slot) => s.id == id)
  }

  function Lookup(slots: seq<Slot>, id: int): Option<Slot> {
    var k := Find(slots, id);
    if k < |slots| then Some(slots[k]) else None
  }

  // Overwrite the range of the slot with this id, or else take the first free slot; with neither, fail.
  function Update(slots: seq<Slot>, s: Slot): Option<seq<Slot>> {
    var k := Find(slots, s.id);
    var f := Find(slots, -1);
    if k < |slots| then Some(slots[k := s]) else if f < |slots| then Some(slots[f := s]) else None
  }

  // The first negative id, or the number of slots.
  function FirstHole(slots: seq<Slot>): (k: nat)
    ensures k <= |slots|
    ensures k < |slots| ==> slots[k].id < 0
    ensures forall j | 0 <= j < k :: slots[j].id >= 0
  {
    First(slots, (s: Slot) => s.id < 0)
  }

  // Free the slot with this id, if it comes before every hole.
  function Delete(slots: seq<Slot>, id: int): Option<seq<Slot>> {
    var k := Find(slots, id);
    if k < FirstHole(slots) then Some(slots[k := slots[k].(id := -1)]) else None
  }

  // Occupied slots come first and name distinct nodes; the rest are free.
  ghost predicate Packed(slots: seq<Slot>) {
    && (forall j | FirstHole(slots) <= j < |slots| :: slots[j].id == -1)
    && (forall j, k | 0 <= j < k < FirstHole(slots) :: slots[j].id != slots[k].id)
  }

  lemma FindIs(slots: seq<Slot>, id: int, k: nat)
    requires k <= |slots| && (k < |slots| ==> slots[k].id == id) && forall j | 0 <= j < k :: slots[j].id != id
    ensures Find(slots, id) == k
  {}

  lemma HoleIs(slots: seq<Slot>, k: nat)
    requires k <= |slots| && (k < |slots| ==> slots[k].id < 0) && forall j | 0 <= j < k :: slots[j].id >= 0
    ensures FirstHole(slots) == k
  {}

  // On any table an update is a map update, or fails, changing nothing, exactly when the id is new and no slot is free.
  lemma UpdateIsMapUpdate(slots: seq<Slot>, s: Slot, id: int)
    requires s.id >= 0 && id >= 0
    ensures Update(slots, s).None? <==> Lookup(slots, s.id).None? && Find(slots, -1) == |slots|
    ensures Update(slots, s).Some? ==>
              Lookup(Update(slots, s).value, id) == if id == s.id then Some(s) else Lookup(slots, id)
  {
    if Update(slots, s).Some? {
      var updated := Update(slots, s).value;
      var k, f, l := Find(slots, s.id), Find(slots, -1), Find(slots, id);
      var at := if k < |slots| then k else f;
      if id == s.id {
        FindIs(updated, id, at);
      } else {
        assert l != at;
        FindIs(updated, id, l);
      }
    }
  }

  // Updates keep the occupied slots a prefix of distinct nodes.
  lemma UpdateKeepsPacked(slots: seq<Slot>, s: Slot)
    requires Packed(slots) && s.id >= 0 && Update(slots, s).Some?
    ensures Packed(Update(slots, s).value)
    ensures FirstHole(Update(slots, s).value) == FirstHole(slots) + if Lookup(slots, s.id).Some? then 0 else 1
  {
    var updated := Update(slots, s).value;
    var k, h := Find(slots, s.id), FirstHole(slots);
    if k < |slots| {
      HoleIs(updated, h);
    } else {
      FindIs(slots, -1, h);
      HoleIs(updated, h + 1);
    }
  }

  // On a packed table a deletion succeeds exactly when the id is there, and then removes it and nothing else.
  lemma DeleteIsMapRemove(slots: seq<Slot>, id: int, other: int)
    requires Packed(slots) && id >= 0 && other >= 0
    ensures Delete(slots, id).Some? <==> Lookup(slots, id).Some?
    ensures Delete(slots, id).Some? ==> Lookup(Delete(slots, id).value, other) == if other == id then None else Lookup(slots, other)
  {
    var k, h := Find(slots, id), FirstHole(slots);
    if k < h {
      var updated := Delete(slots, id).value;
      if other == id {
        FindIs(updated, other, |updated|);
      } else {
        FindIs(updated, other, Find(slots, other));
      }
    }
  }

  // Which slot an update takes, on any table: the first with the id, or, when there is none, the first free one. No other
  // slot changes. It fails exactly when there is neither.
  lemma UpdateTakes(slots: seq<Slot>, s: Slot)
    ensures Update(slots, s).None? <==> forall j | 0 <= j < |slots| :: slots[j].id != s.id && slots[j].id != -1
    ensures Update(slots, s).Some? ==>
              exists at: nat :: at < |slots| && Update(slots, s).value == slots[at := s]
                && (forall j | 0 <= j < at :: slots[j].id != s.id)
                && (slots[at].id == s.id || (slots[at].id == -1 && (forall j | 0 <= j < |slots| :: slots[j].id != s.id)
                                             && forall j | 0 <= j < at :: slots[j].id != -1))
  {
    var k, f := Find(slots, s.id), Find(slots, -1);
    if k < |slots| {
      assert Update(slots, s).value == slots[k := s];
    } else if f < |slots| {
      assert Update(slots, s).value == slots[f := s];
    }
  }

  // Which slot a deletion frees, on any table: the first with the id, provided no free one comes before it. The range it held
  // stays behind, and no other slot changes.
  lemma DeleteTakes(slots: seq<Slot>, id: int)
    ensures Delete(slots, id).Some?
       <==> exists at: nat :: at < |slots| && slots[at].id == id >= 0 && forall j | 0 <= j < at :: slots[j].id >= 0 && slots[j].id != id
    ensures forall at: nat | at < |slots| && slots[at].id == id >= 0 && (forall j | 0 <= j < at :: slots[j].id >= 0 && slots[j].id != id) ::
              Delete(slots, id) == Some(slots[at := Slot(-1, slots[at].st, slots[at].end)])
  {
    var k := Find(slots, id);
    if k < FirstHole(slots) {
      assert slots[k].id == id >= 0;
    }
    forall at: nat | at < |slots| && slots[at].id == id >= 0 && (forall j | 0 <= j < at :: slots[j].id >= 0 && slots[j].id != id)
      ensures at == k < FirstHole(slots)
    {
      FindIs(slots, id, at);
    }
  }

  // ---- iteration ----

  // One call of the shipped iterator: nothing at the end or at a hole, else the slot and one step on.
  function NextShipped(slots: seq<Slot>, at: nat): (nat, Option<Slot>) {
    if at >= |slots| || slots[at].id < 0 then (at, None) else (at + 1, Some(slots[at]))
  }

  // Repaired: skip holes, testing the bound before every read.
  function NextRepaired(slots: seq<Slot>, at: nat): (r: (nat, Option<Slot>))
    ensures at <= |slots| ==> r.0 <= |slots|
    ensures r.1.Some? ==> at < r.0 <= |slots| && slots[r.0 - 1] == r.1.value && r.1.value.id >= 0
    ensures forall j | at <= j < if r.1.Some? then r.0 - 1 else |slots| :: slots[j].id < 0
    decreases |slots| - at
  {
    if at >= |slots| then (at, None)
    else if slots[at].id < 0 then NextRepaired(slots, at + 1)
    else (at + 1, Some(slots[at]))
  }

  lemma NextTurns(slots: seq<Slot>, at: nat)
    requires at <= |slots|
    ensures at == |slots| ==> NextRepaired(slots, at) == (at, None)
    ensures at < |slots| ==> NextRepaired(slots, at) == if slots[at].id < 0 then NextRepaired(slots, at + 1) else (at + 1, Some(slots[at]))
  {}

  // Everything an iteration yields from a position on.
  function AllShipped(slots: seq<Slot>, at: nat): seq<Slot>
    decreases |slots| - at
  {
    var (next, s) := NextShipped(slots, at);
    if s.None? then [] else [s.value] + AllShipped(slots, next)
  }

  function AllRepaired(slots: seq<Slot>, at: nat): seq<Slot>
    decreases |slots| - at
  {
    var (next, s) := NextRepaired(slots, at);
    if s.None? then [] else [s.value] + AllRepaired(slots, next)
  }

  function Occupied(slots: seq<Slot>): seq<Slot> {
    if slots == [] then [] else (if slots[0].id >= 0 then [slots[0]] else []) + Occupied(slots[1..])
  }

  // The shipped iteration yields exactly the slots before the first hole.
  lemma {:induction false} ShippedYields(slots: seq<Slot>, at: nat)
    requires at <= FirstHole(slots)
    ensures AllShipped(slots, at) == slots[at..FirstHole(slots)]
    decreases |slots| - at
  {
    if at < FirstHole(slots) {
      ShippedYields(slots, at + 1);
    }
  }

  // Where n calls of the shipped iterator bring it: one slot on for each call, and no further than the first hole.
  function AfterCalls(slots: seq<Slot>, n: nat): nat {
    if n == 0 then 0 else NextShipped(slots, AfterCalls(slots, n - 1)).0
  }

  // So calling it again never gets it past a hole: call n + 1 yields slot n, and from the hole on every call yields nothing.
  lemma {:induction false} StaysAtHole(slots: seq<Slot>, n: nat)
    ensures AfterCalls(slots, n) == if n < FirstHole(slots) then n else FirstHole(slots)
    ensures NextShipped(slots, AfterCalls(slots, n)).1 == if n < FirstHole(slots) then Some(slots[n]) else None
  {
    if n > 0 {
      StaysAtHole(slots, n - 1);
    }
  }

  // The repaired iteration yields every occupied slot once, in order, whatever the holes.
  lemma {:induction false} RepairedYields(slots: seq<Slot>, at: nat)
    requires at <= |slots|
    ensures AllRepaired(slots, at) == Occupied(slots[at..])
    decreases |slots| - at
  {
    if at < |slots| {
      RepairedYields(slots, at + 1);
      assert slots[at..][1..] == slots[at + 1..];
    }
  }

  lemma {:induction false} OccupiedPrefix(slots: seq<Slot>)
    requires forall j | FirstHole(slots) <= j < |slots| :: slots[j].id < 0
    ensures Occupied(slots) == slots[..FirstHole(slots)]
  {
    hide FirstHole;
    if slots != [] {
      var tail, h := slots[1..], FirstHole(slots);
      assert forall j | 0 <= j < |tail| :: tail[j] == slots[j + 1];
      HoleIs(tail, if h == 0 then 0 else h - 1);
      OccupiedPrefix(tail);
      assert h > 0 ==> slots[..h] == [slots[0]] + tail[..h - 1];
    }
  }

  // So on any table the shipped iterator misses nothing exactly when no occupied slot follows a hole.
  lemma ShippedComplete(slots: seq<Slot>)
    ensures AllShipped(slots, 0) == AllRepaired(slots, 0) <==> forall j | FirstHole(slots) <= j < |slots| :: slots[j].id < 0
  {
    ShippedYields(slots, 0);
    RepairedYields(slots, 0);
    assert slots[0..] == slots;
    if forall j | FirstHole(slots) <= j < |slots| :: slots[j].id < 0 {
      OccupiedPrefix(slots);
    } else {
      OccupiedMore(slots);
    }
  }

  lemma {:induction false} OccupiedMore(slots: seq<Slot>)
    requires exists j :: FirstHole(slots) <= j < |slots| && slots[j].id >= 0
    ensures |Occupied(slots)| > FirstHole(slots)
  {
    var j :| FirstHole(slots) <= j < |slots| && slots[j].id >= 0;
    var tail := slots[1..];
    assert tail[j - 1] == slots[j];
    if slots[0].id >= 0 {
      OccupiedMore(tail);
    } else {
      SomeOccupied(tail, j - 1);
    }
  }

  lemma {:induction false} SomeOccupied(slots: seq<Slot>, j: nat)
    requires j < |slots| && slots[j].id >= 0
    ensures Occupied(slots) != []
  {
    if j > 0 {
      assert slots[1..][j - 1] == slots[j];
      SomeOccupied(slots[1..], j - 1);
    }
  }

  // After a deletion from a packed table the shipped iterator still reaches every node exactly when the last one was deleted.
  lemma DeletionHides(slots: seq<Slot>, id: int)
    requires Packed(slots) && id >= 0 && Lookup(slots, id).Some?
    ensures var holed := Delete(slots, id);
            && holed.Some?
            && (AllShipped(holed.value, 0) == AllRepaired(holed.value, 0) <==> Find(slots, id) + 1 == FirstHole(slots))
  {
    DeleteIsMapRemove(slots, id, id);
    var k, h := Find(slots, id), FirstHole(slots);
    var holed := slots[k := slots[k].(id := -1)];
    HoleIs(holed, k);
    ShippedComplete(holed);
    if k + 1 < h {
      assert holed[k + 1].id >= 0;
    }
  }

  // What it then yields: the slots packed before the deleted one, never the last one packed unless that was deleted.
  lemma SeenAfterDeletion(slots: seq<Slot>, id: int)
    requires Packed(slots) && id >= 0 && Lookup(slots, id).Some?
    ensures Delete(slots, id).Some? && AllShipped(Delete(slots, id).value, 0) == slots[..Find(slots, id)]
    ensures FirstHole(slots) > 0 && forall s | s in AllShipped(Delete(slots, id).value, 0) :: s.id != slots[FirstHole(slots) - 1].id
  {
    DeleteIsMapRemove(slots, id, id);
    var k := Find(slots, id);
    var holed := slots[k := slots[k].(id := -1)];
    HoleIs(holed, k);
    ShippedYields(holed, 0);
    assert holed[0..k] == slots[..k];
  }

  // The two slots of a buffer that names its receiver first and its sender second.
  lemma SenderHidden()
    ensures var holed := [Slot(-1, 0, 0), Slot(1, 0, 0)];
            Delete([Slot(0, 0, 0), Slot(1, 0, 0)], 0) == Some(holed) && AllShipped(holed, 0) == [] && AllRepaired(holed, 0) == [Slot(1, 0, 0)]
  {
    var slots, holed := [Slot(0, 0, 0), Slot(1, 0, 0)], [Slot(-1, 0, 0), Slot(1, 0, 0)];
    FindIs(slots, 0, 0);
    HoleIs(slots, 2);
    HoleIs(holed, 0);
    assert slots[0 := slots[0].(id := -1)] == holed;
    RepairedYields(holed, 0);
    assert holed[0..] == holed && holed[1..] == [Slot(1, 0, 0)] && holed[1..][1..] == [];
  }
}
