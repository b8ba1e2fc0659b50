/** The ring's theorems, for every number of nodes and every run. */
module RingTheorems {
  import opened Int32
  import opened Messages
  import opened Sums
  import opened Content
  import opened Ring
  import opened Invariant
  import opened RingSteps
  import opened RingReceive
  import P = PropagatorSpec

  // ---- every run keeps the invariant ----

  lemma StartKeeps(n: nat)
    requires n > 0
    ensures Inv(Start(n))
  {
    hide NodeOK, WireOK;
    var s := Start(n);
    forall i: nat | i < n ensures NodeOK(s.nodes[i], i, s.logs, s.cuts) {
      StartNode(n, i);
    }
    forall i: nat | i < n
      ensures WireOK(s.wires[i], s.nodes[Pred(n, i)].prop, Pred(n, i), s.nodes[i].delivered, s.logs, s.cuts)
    {
      StartWire(n, i);
    }
  }

  lemma StartWire(n: nat, i: nat)
    requires i < n
    ensures var s := Start(n);
            WireOK(s.wires[i], s.nodes[Pred(n, i)].prop, Pred(n, i), s.nodes[i].delivered, s.logs, s.cuts)
  {
    hide Whole;
  }

  lemma StartNode(n: nat, i: nat)
    requires i < n
    ensures NodeOK(Start(n).nodes[i], i, Start(n).logs, Start(n).cuts)
  {
    var s := Start(n);
    var node := s.nodes[i];
    HoldsNothing(s.logs, All(node.prop, i));
    HoldsNothing(s.logs, map[i := node.prop.ownRange]);
    forall k ensures TableAt(node, i, s.logs, k) {
      NamedNothing(s.logs, Applied(node, i, s.logs), n, k);
    }
  }

  // Every step of every node passes its checks and keeps the invariant.
  lemma StepKeeps(s: System, a: Action)
    requires Inv(s)
    ensures !Step(s, a, Repaired).Abort?
    ensures Step(s, a, Repaired).Next? ==> Inv(Step(s, a, Repaired).s)
  {
    hide Inv, DoInc, DoLog, DoTimer, DoRecord, DoSend, DoReceive, DoForward;
    InvWellFormed(s);
    if a.i < Size(s) {
      match a
      case Inc(i, thread, key, delta) => IncKeeps(s, i, thread, key, delta); IncNeverAborts(s, i, thread, key, delta);
      case Log(i, at) => LogKeeps(s, i, at); LogNeverAborts(s, i, at);
      case Timer(i) => TimerKeeps(s, i);
      case Record(i) => RecordKeeps(s, i); RecordNeverAborts(s, i);
      case Send(i) => SendKeeps(s, i); SendNeverAborts(s, i);
      case Receive(i) => ReceiveKeeps(s, i);
      case Forward(i) => ForwardKeeps(s, i);
    }
  }

  lemma InvWellFormed(s: System)
    requires Inv(s)
    ensures WellFormed(s)
  {}

  lemma IncNeverAborts(s: System, i: nat, thread: int, key: int, delta: Value)
    requires WellFormed(s) && i < Size(s)
    ensures !DoInc(s, i, thread, key, delta).Abort?
  {}

  lemma LogNeverAborts(s: System, i: nat, at: nat)
    requires WellFormed(s) && i < Size(s)
    ensures !DoLog(s, i, at).Abort?
  {}

  lemma RecordNeverAborts(s: System, i: nat)
    requires WellFormed(s) && i < Size(s)
    ensures !DoRecord(s, i).Abort?
  {}

  lemma SendNeverAborts(s: System, i: nat)
    requires WellFormed(s) && i < Size(s)
    ensures !DoSend(s, i).Abort?
  {}

  lemma {:induction false} RunKeeps(s: System, actions: seq<Action>)
    requires Inv(s)
    ensures !Run(s, actions, Repaired).Abort?
    ensures Run(s, actions, Repaired).Next? ==> Inv(Run(s, actions, Repaired).s)
    decreases |actions|
  {
    hide Inv, Step;
    InvWellFormed(s);
    if actions != [] {
      StepKeeps(s, actions[0]);
      if Step(s, actions[0], Repaired).Next? {
        RunKeeps(Step(s, actions[0], Repaired).s, actions[1..]);
      }
    }
  }

  // No CHECK fails, no fatal branch is taken and no empty queue is read, whatever the ring's size and schedule.
  lemma NoCheckFails(n: nat, actions: seq<Action>)
    requires n > 0
    ensures !Run(Start(n), actions, Repaired).Abort?
  {
    StartKeeps(n);
    RunKeeps(Start(n), actions);
  }

  // ---- exactly once ----

  // The increments to key `k` that node i's application issued in a run.
  function Issued(actions: seq<Action>, i: int, k: int): int {
    if actions == [] then 0
    else
      var a := actions[0];
      (if a.Inc? && a.i == i && a.key == k then a.delta else 0) + Issued(actions[1..], i, k)
  }

  // The prefixes of the other origins' logs that have reached a node.
  function Others(logs: seq<seq<Inc>>, delivered: seq<int>, i: int, n: nat, k: int): int
    requires n <= |logs| && n <= |delivered|
  {
    if n == 0 then 0
    else Others(logs, delivered, i, n - 1, k) + (if n - 1 == i then 0 else Part(logs[n - 1], 0, delivered[n - 1], k))
  }

  // What an origin's log and its unlogged increments add up to.
  function OwnSum(s: System, i: nat, k: int): int
    requires WellFormed(s) && i < Size(s)
  {
    Part(s.logs[i], 0, |s.logs[i]|, k) + QueuedSum(s.nodes[i].queued, k)
  }

  lemma OwnSumInc(s: System, i: nat, thread: int, key: int, delta: Value, j: nat, k: int)
    requires WellFormed(s) && i < Size(s) && j < Size(s) && DoInc(s, i, thread, key, delta).Next?
    ensures OwnSum(DoInc(s, i, thread, key, delta).s, j, k) == OwnSum(s, j, k) + (if i == j && key == k then delta else 0)
  {
    QueuedAppend(s.nodes[i].queued, Queued(thread, Messages.Inc(key, delta)), k);
  }

  lemma OwnSumLog(s: System, i: nat, at: nat, j: nat, k: int)
    requires WellFormed(s) && i < Size(s) && j < Size(s) && DoLog(s, i, at).Next?
    ensures OwnSum(DoLog(s, i, at).s, j, k) == OwnSum(s, j, k)
  {
    if j == i {
      var log, log' := s.logs[i], DoLog(s, i, at).s.logs[i];
      QueuedRemove(s.nodes[i].queued, at, k);
      PartPrefix(log, log', 0, |log|, k);
      assert Part(log', 0, |log'|, k) == Part(log', 0, |log|, k) + Term(log', |log|, k);
    }
  }

  // Logging moves an increment from the queue to the log; nothing else touches either.
  lemma OwnSumStep(s: System, a: Action, v: Variant, j: nat, k: int)
    requires WellFormed(s) && j < Size(s) && Step(s, a, v).Next?
    ensures OwnSum(Step(s, a, v).s, j, k) == OwnSum(s, j, k) + Issued([a], j, k)
  {
    assert [a][1..] == [];
    match a
    case Inc(i, thread, key, delta) => OwnSumInc(s, i, thread, key, delta, j, k);
    case Log(i, at) => OwnSumLog(s, i, at, j, k);
    case _ =>
  }

  lemma {:induction false} OwnSumRun(s: System, actions: seq<Action>, v: Variant, j: nat, k: int)
    requires WellFormed(s) && j < Size(s) && Run(s, actions, v).Next?
    ensures OwnSum(Run(s, actions, v).s, j, k) == OwnSum(s, j, k) + Issued(actions, j, k)
    decreases |actions|
  {
    hide Step, OwnSum;
    if actions != [] {
      OwnSumStep(s, actions[0], v, j, k);
      OwnSumRun(Step(s, actions[0], v).s, actions[1..], v, j, k);
      assert [actions[0]][1..] == [];
    }
  }

  lemma {:induction false} AppliedSplits(n: Node, i: nat, logs: seq<seq<Inc>>, m: nat, k: int)
    requires m <= |logs| == |n.delivered| && i < |logs|
    ensures Named(logs, Applied(n, i, logs), m, k)
         == Others(logs, n.delivered, i, m, k) + (if i < m then Part(logs[i], 0, |logs[i]|, k) else 0)
  {
    if m > 0 {
      AppliedSplits(n, i, logs, m - 1, k);
    }
  }

  lemma ValueIs(s: System, i: nat, k: int)
    requires Inv(s) && i < Size(s)
    ensures |s.nodes[i].delivered| == |s.logs| == Size(s)
    ensures forall o | 0 <= o < Size(s) :: 0 <= s.nodes[i].delivered[o] <= |s.logs[o]|
    ensures Get(s.nodes[i].recv.table, k) == Wrap(OwnSum(s, i, k) + Others(s.logs, s.nodes[i].delivered, i, Size(s), k))
  {
    hide Wrap, StoreOK, OwnOK, HeldOK, ForwardOK, QueueOK, WireOK;
    var node := s.nodes[i];
    assert NodeOK(node, i, s.logs, s.cuts);
    assert TableAt(node, i, s.logs, k);
    AppliedSplits(node, i, s.logs, Size(s), k);
  }

  // In every reachable state of a ring of any size, a node's value is the sum of everything its own application
  // issued and, for every other origin, of a prefix of what that origin logged: none lost, none doubled.
  lemma ExactlyOnce(n: nat, actions: seq<Action>, i: nat, k: int)
    requires n > 0 && i < n && Run(Start(n), actions, Repaired).Next?
    ensures var s := Run(Start(n), actions, Repaired).s;
            && |s.nodes[i].delivered| == |s.logs| == n
            && (forall o | 0 <= o < n :: 0 <= s.nodes[i].delivered[o] <= |s.logs[o]|)
            && Get(s.nodes[i].recv.table, k) == Wrap(Issued(actions, i, k) + Others(s.logs, s.nodes[i].delivered, i, n, k))
  {
    hide Run, Wrap, Inv;
    StartKeeps(n);
    RunKeeps(Start(n), actions);
    ValueIs(Run(Start(n), actions, Repaired).s, i, k);
    OwnSumRun(Start(n), actions, Repaired, i, k);
  }

  // ---- the pipeline ----

  function RangesOf(buffers: seq<Buffer>, o: int): seq<Range> {
    if buffers == [] then []
    else (if o in buffers[0].ranges then [buffers[0].ranges[o]] else []) + RangesOf(buffers[1..], o)
  }

  // Origin o's ranges inside propagator i: the buffer waiting for its acknowledgement, then the store.
  function InProp(p: P.State, i: int, o: int): seq<Range> {
    (if p.held.Some? && o in p.held.value.ranges then [p.held.value.ranges[o]] else [])
    + (if o in All(p, i) && !All(p, i)[o].Empty() then [All(p, i)[o]] else [])
  }

  // All of origin o's ranges in the ring, read from the wire into node j back to o's own pending range.
  function Trail(s: System, o: nat, j: nat): seq<Range>
    requires WellFormed(s) && o < Size(s) && j < Size(s)
    decreases Distance(Size(s), o, Pred(Size(s), j))
  {
    var i := Pred(Size(s), j);
    RangesOf(s.wires[j], o) + InProp(s.nodes[i].prop, i, o)
    + if i == o then [] else RangesOf(s.nodes[i].toProp, o) + Trail(s, o, i)
  }

  // Consecutive, disjoint, non-empty ranges from sequence number lo to hi - 1.
  ghost predicate Consecutive(ranges: seq<Range>, lo: int, hi: int) {
    if ranges == [] then lo == hi
    else ranges[0].st == lo <= ranges[0].end && Consecutive(ranges[1..], ranges[0].end + 1, hi)
  }

  lemma {:induction false} ConsecutiveJoins(a: seq<Range>, b: seq<Range>, lo: int, mid: int, hi: int)
    requires Consecutive(a, lo, mid) && Consecutive(b, mid, hi)
    ensures Consecutive(a + b, lo, hi)
    decreases |a|
  {
    if a == [] {
      assert a + b == b;
    } else {
      ConsecutiveJoins(a[1..], b, a[0].end + 1, mid, hi);
      assert (a + b)[1..] == a[1..] + b;
    }
  }

  lemma {:induction false} ChainConsecutive(buffers: seq<Buffer>, o: int, lo: int, hi: int)
    requires Chain(buffers, o, lo, hi)
    ensures Consecutive(RangesOf(buffers, o), lo, hi)
    decreases |buffers|
  {
    if buffers != [] {
      ChainConsecutive(buffers[1..], o, After(buffers[0], o, lo), hi);
      if o in buffers[0].ranges {
        assert RangesOf(buffers, o)[1..] == RangesOf(buffers[1..], o);
      } else {
        assert RangesOf(buffers, o) == RangesOf(buffers[1..], o);
      }
    }
  }

  lemma InPropConsecutive(n: Node, i: nat, o: nat, logs: seq<seq<Inc>>, cuts: seq<set<int>>)
    requires NodeOK(n, i, logs, cuts) && i < |logs| && o < |logs|
    ensures Consecutive(InProp(n.prop, i, o), Sent(n.prop, i, o), Hi(All(n.prop, i), o))
  {
    hide Holds;
    assert 0 <= Lo(All(n.prop, i), o) <= Hi(All(n.prop, i), o);
    var held := if n.prop.held.Some? && o in n.prop.held.value.ranges then [n.prop.held.value.ranges[o]] else [];
    var kept := if o in All(n.prop, i) && !All(n.prop, i)[o].Empty() then [All(n.prop, i)[o]] else [];
    assert Consecutive(held, Sent(n.prop, i, o), Lo(All(n.prop, i), o));
    assert Consecutive(kept, Lo(All(n.prop, i), o), Hi(All(n.prop, i), o));
    ConsecutiveJoins(held, kept, Sent(n.prop, i, o), Lo(All(n.prop, i), o), Hi(All(n.prop, i), o));
  }

  lemma {:induction false} TrailConsecutive(s: System, o: nat, j: nat)
    requires Inv(s) && o < Size(s) && j < Size(s)
    ensures |s.nodes[j].delivered| == Size(s)
    ensures Consecutive(Trail(s, o, j), s.nodes[j].delivered[o], |s.logs[o]|)
    decreases Distance(Size(s), o, Pred(Size(s), j))
  {
    hide NodeOK, Consecutive;
    var i := Pred(Size(s), j);
    var lo, p := s.nodes[j].delivered, s.nodes[i].prop;
    AtNode(s, j);
    AtNode(s, i);
    assert WireOK(s.wires[j], p, i, lo, s.logs, s.cuts);
    ChainConsecutive(s.wires[j], o, lo[o], Sent(p, i, o));
    InPropConsecutive(s.nodes[i], i, o, s.logs, s.cuts);
    ConsecutiveJoins(RangesOf(s.wires[j], o), InProp(p, i, o), lo[o], Sent(p, i, o), Hi(All(p, i), o));
    if i != o {
      var got := s.nodes[i].delivered[o];
      ForwardChain(s, i, o);
      ChainConsecutive(s.nodes[i].toProp, o, Hi(All(p, i), o), got);
      TrailConsecutive(s, o, i);
      ConsecutiveJoins(RangesOf(s.nodes[i].toProp, o), Trail(s, o, i), Hi(All(p, i), o), got, |s.logs[o]|);
      ConsecutiveJoins(RangesOf(s.wires[j], o) + InProp(p, i, o), RangesOf(s.nodes[i].toProp, o) + Trail(s, o, i),
                      lo[o], Hi(All(p, i), o), |s.logs[o]|);
    } else {
      OwnEnd(s, i);
      assert Trail(s, o, j) == RangesOf(s.wires[j], o) + InProp(p, i, o);
    }
  }

  lemma ForwardChain(s: System, i: nat, o: nat)
    requires Inv(s) && i < Size(s) && o < Size(s) && i != o && |s.nodes[i].delivered| == Size(s)
    ensures Chain(s.nodes[i].toProp, o, Hi(All(s.nodes[i].prop, i), o), s.nodes[i].delivered[o])
  {
    assert NodeOK(s.nodes[i], i, s.logs, s.cuts);
  }

  lemma OwnEnd(s: System, i: nat)
    requires Inv(s) && i < Size(s)
    ensures Hi(All(s.nodes[i].prop, i), i) == |s.logs[i]|
  {
    assert NodeOK(s.nodes[i], i, s.logs, s.cuts);
  }

  // In every reachable state, each origin's ranges, read once round the ring from the last hop back to its own pending
  // range, are contiguous and disjoint and cover exactly what has been logged and not yet come back.
  lemma Pipeline(n: nat, actions: seq<Action>, o: nat)
    requires n > 0 && o < n && Run(Start(n), actions, Repaired).Next?
    ensures var s := Run(Start(n), actions, Repaired).s;
            o < |s.nodes[o].delivered| && Consecutive(Trail(s, o, o), s.nodes[o].delivered[o], |s.logs[o]|)
  {
    hide Run;
    StartKeeps(n);
    RunKeeps(Start(n), actions);
    TrailConsecutive(Run(Start(n), actions, Repaired).s, o, o);
  }
}
