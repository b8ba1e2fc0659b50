/** When a step of the ring can be taken: exactly when the source's thread has a message to read and is not waiting. */
module Enabled {
  import opened Int32
  import opened Messages
  import opened Ring
  import opened Invariant
  import opened RingSteps
  import opened RingTheorems
  import P = PropagatorSpec
  import R = ReceiverSpec

  // In every reachable state every application thread of every node can increment any 32-bit key, whatever the node's other
  // threads are doing. The value of that key at that node grows by the delta; no other value anywhere changes; and the
  // increment is last among those on their way to the propagator.
  lemma CanIncrement(n: nat, actions: seq<Action>, i: nat, thread: int, key: int, delta: Value) returns (s: System, t: System)
    requires n > 0 && i < n && Run(Start(n), actions, Repaired).Next? && -0x8000_0000 <= key <= 0x7FFF_FFFF
    ensures Run(Start(n), actions, Repaired) == Next(s) && Size(s) == n
    ensures Run(Start(n), actions + [Action.Inc(i, thread, key, delta)], Repaired) == Next(t) && Size(t) == n
    ensures Get(t.nodes[i].recv.table, key) == VAdd(Get(s.nodes[i].recv.table, key), delta)
    ensures forall j, k | 0 <= j < n && !(j == i && k == key) :: Get(t.nodes[j].recv.table, k) == Get(s.nodes[j].recv.table, k)
    ensures t.nodes[i].queued == s.nodes[i].queued + [Queued(thread, Messages.Inc(key, delta))]
    ensures t.nodes[i].prop == s.nodes[i].prop && t.nodes[i].recv.queue == s.nodes[i].recv.queue && t.wires == s.wires
    ensures forall j | 0 <= j < n && j != i :: t.nodes[j] == s.nodes[j]
  {
    hide Run, VAdd;
    s := Run(Start(n), actions, Repaired).s;
    StopsWith(Start(n), actions, Action.Inc(i, thread, key, delta), Repaired, s);
    t := DoInc(s, i, thread, key, delta).s;
  }

  // No other key can be incremented: the propagator would not take it.
  lemma WideKeysStop(s: System, i: nat, thread: int, key: int, delta: Value)
    requires WellFormed(s) && i < Size(s)
    ensures Step(s, Action.Inc(i, thread, key, delta), Repaired).Disabled? <==> key < -0x8000_0000 || key > 0x7FFF_FFFF
  {}

  // A receiver reads whatever has arrived; a propagator reads whatever has arrived unless it waits for an acknowledgement; an
  // acknowledgement ends the wait; and increments of one application thread are read in the order they were made.
  lemma ReadsWhatArrives(s: System, i: nat, v: Variant)
    requires WellFormed(s) && i < Size(s)
    ensures Step(s, Receive(i), v).Disabled? <==> s.wires[i] == []
    ensures Step(s, Record(i), v).Disabled? <==> s.nodes[i].toReceiver == []
    ensures Step(s, Send(i), v).Disabled? <==> s.nodes[i].prop.held.None? || s.nodes[i].acks == 0
    ensures Step(s, Forward(i), v).Disabled? <==> s.nodes[i].toProp == [] || s.nodes[i].prop.held.Some?
    ensures Step(s, Timer(i), v).Disabled? <==> s.nodes[i].prop.store == map[] || s.nodes[i].prop.held.Some?
    ensures forall at: nat ::
              Step(s, Log(i, at), v).Disabled?
              <==> at >= |s.nodes[i].queued| || s.nodes[i].prop.held.Some?
                   || exists j :: 0 <= j < at && s.nodes[i].queued[j].thread == s.nodes[i].queued[at].thread
  {
    hide P.OnUpdateBuffer, R.OnUpdateBuffer, R.OnUpdateBufferShipped;
  }

  // Only the node that takes a step changes, and of the wires only the one it reads or the one it writes.
  lemma OthersUntouched(s: System, a: Action, v: Variant)
    requires WellFormed(s) && a.i < Size(s) && Step(s, a, v).Next?
    ensures var t := Step(s, a, v).s;
            && (forall j | 0 <= j < Size(s) && j != a.i :: t.nodes[j] == s.nodes[j])
            && (forall j | 0 <= j < Size(s) :: t.wires[j] == s.wires[j]
                  || (j == Succ(Size(s), a.i) && (a.Timer? || a.Send?) && |t.wires[j]| == |s.wires[j]| + 1 && t.wires[j][..|s.wires[j]|] == s.wires[j])
                  || (j == a.i && a.Receive? && s.wires[j] != [] && t.wires[j] == s.wires[j][1..]))
  {
    hide P.OnUpdateBuffer, R.OnUpdateBuffer, R.OnUpdateBufferShipped;
  }

  // What the history records, and when: a log each increment its node's propagator reads, in that order; the cuts where each
  // flush with own updates ended; and a node, of each origin that a received buffer names, how far it has come.
  lemma HistoryRecords(s: System, a: Action, v: Variant, o: nat)
    requires WellFormed(s) && a.i < Size(s) && o < Size(s) && Step(s, a, v).Next?
    ensures var n, t := s.nodes[o], Step(s, a, v).s;
            && (if a.Log? && a.i == o then a.at < |n.queued| && t.logs[o] == s.logs[o] + [n.queued[a.at].inc] else t.logs[o] == s.logs[o])
            && t.cuts[o] == (if a == Timer(o) && n.prop.own != map[] then s.cuts[o] + {n.prop.ownRange.end + 1} else s.cuts[o])
            && |t.nodes[o].delivered| == |n.delivered|
            && forall p | 0 <= p < |n.delivered| ::
                 t.nodes[o].delivered[p]
                 == if a == Receive(o) && s.wires[o] != [] && p in s.wires[o][0].ranges then s.wires[o][0].ranges[p].end + 1 else n.delivered[p]
  {
    hide P.OnUpdateBuffer, R.OnUpdateBuffer, R.OnUpdateBufferShipped;
  }
}
