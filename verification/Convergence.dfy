/** Once increments stop, every run is finite, and where it ends all tables agree. */
module Convergence {
  import opened Int32
  import opened Messages
  import opened Content
  import opened Ring
  import opened Invariant
  import opened RingSteps
  import opened RingReceive
  import opened RingTheorems
  import P = PropagatorSpec
  import R = ReceiverSpec

  // ---- the measure ----

  // How far origin o's log has come at node i: each increment counts once per cursor that has passed it
  // (flushing counts three times, so that it outweighs the own batch it puts in the receiver's channel).
  function Progress(n: Node, i: int, o: nat): int
    requires o < |n.delivered|
  {
    Hi(All(n.prop, i), o) + 3 * Lo(All(n.prop, i), o) + Sent(n.prop, i, o) + n.delivered[o]
  }

  function ProgressSum(n: Node, i: int, m: nat): int
    requires m <= |n.delivered|
  {
    if m == 0 then 0 else ProgressSum(n, i, m - 1) + Progress(n, i, m - 1)
  }

  // Own batches still on their way to the queue count against the node.
  function Score(n: Node, i: int): int {
    ProgressSum(n, i, |n.delivered|) - |n.toReceiver|
  }

  function Scores(nodes: seq<Node>, m: nat): int
    requires m <= |nodes|
  {
    if m == 0 then 0 else Scores(nodes, m - 1) + Score(nodes[m - 1], m - 1)
  }

  // The increments issued at the first m nodes, logged or not.
  function Issues(s: System, m: nat): nat
    requires WellFormed(s) && m <= Size(s)
  {
    if m == 0 then 0 else Issues(s, m - 1) + |s.logs[m - 1]| + |s.nodes[m - 1].queued|
  }

  // The cursors every issued increment has still to pass.
  function Measure(s: System): int
    requires WellFormed(s)
  {
    6 * Size(s) * Issues(s, Size(s)) - Scores(s.nodes, Size(s))
  }

  function Logged(logs: seq<seq<Inc>>, m: nat): nat
    requires m <= |logs|
  {
    if m == 0 then 0 else Logged(logs, m - 1) + |logs[m - 1]|
  }

  lemma {:induction false} ProgressBounded(n: Node, i: nat, logs: seq<seq<Inc>>, cuts: seq<set<int>>, m: nat)
    requires NodeOK(n, i, logs, cuts) && i < |logs| && m <= |logs| == |n.delivered|
    ensures ProgressSum(n, i, m) <= 6 * Logged(logs, m)
  {
    hide NodeOK;
    if m > 0 {
      ProgressBounded(n, i, logs, cuts, m - 1);
      SentFirst(n, i, m - 1, logs, cuts);
      DeliveredBounded(n, i, logs, cuts, m - 1);
    }
  }

  lemma DeliveredBounded(n: Node, i: nat, logs: seq<seq<Inc>>, cuts: seq<set<int>>, o: nat)
    requires NodeOK(n, i, logs, cuts) && o < |logs|
    ensures |n.delivered| == |logs| && n.delivered[o] <= |logs[o]|
  {}

  lemma {:induction false} LoggedIssued(s: System, m: nat)
    requires WellFormed(s) && m <= Size(s)
    ensures Logged(s.logs, m) <= Issues(s, m)
  {
    if m > 0 {
      LoggedIssued(s, m - 1);
    }
  }

  lemma ScoreBounded(s: System, i: nat)
    requires Inv(s) && i < Size(s)
    ensures Score(s.nodes[i], i) <= 6 * Issues(s, Size(s))
  {
    hide NodeOK, WireOK;
    AtNode(s, i);
    ProgressBounded(s.nodes[i], i, s.logs, s.cuts, Size(s));
    LoggedIssued(s, Size(s));
  }

  lemma {:induction false} ScoresBounded(s: System, m: nat, bound: int)
    requires Inv(s) && m <= Size(s) && bound == 6 * Issues(s, Size(s))
    ensures Scores(s.nodes, m) <= m * bound
  {
    hide Inv, Score;
    if m > 0 {
      ScoresBounded(s, m - 1, bound);
      ScoreBounded(s, m - 1);
      assert m * bound == (m - 1) * bound + bound;
    }
  }

  lemma SixTimes(a: int, b: int)
    ensures 6 * a * b == a * (6 * b)
  {}

  lemma MeasureNotNegative(s: System)
    requires Inv(s)
    ensures Measure(s) >= 0
  {
    hide Inv, Scores, Issues;
    InvWellFormed(s);
    ScoresBounded(s, Size(s), 6 * Issues(s, Size(s)));
    SixTimes(Size(s), Issues(s, Size(s)));
  }

  // ---- every step that is not an increment makes progress ----

  lemma {:induction false} ProgressGrows(n: Node, n': Node, i: int, m: nat, o: nat, gap: int)
    requires m <= |n.delivered| == |n'.delivered| && gap >= 0
    requires forall p | 0 <= p < m :: Progress(n, i, p) <= Progress(n', i, p)
    requires o < m ==> Progress(n, i, o) + gap <= Progress(n', i, o)
    ensures ProgressSum(n, i, m) + (if o < m then gap else 0) <= ProgressSum(n', i, m)
  {
    if m > 0 {
      ProgressGrows(n, n', i, m - 1, o, gap);
    }
  }

  lemma {:induction false} ScoresGrow(nodes: seq<Node>, i: nat, n': Node, m: nat)
    requires i < |nodes| && m <= |nodes|
    ensures Scores(nodes[i := n'], m) == Scores(nodes, m) + (if i < m then Score(n', i) - Score(nodes[i], i) else 0)
  {
    if m > 0 {
      ScoresGrow(nodes, i, n', m - 1);
    }
  }

  lemma {:induction false} IssuesSame(s: System, t: System, m: nat)
    requires WellFormed(s) && WellFormed(t) && Size(s) == Size(t) && m <= Size(s)
    requires forall j | 0 <= j < Size(s) :: |s.logs[j]| + |s.nodes[j].queued| == |t.logs[j]| + |t.nodes[j].queued|
    ensures Issues(s, m) == Issues(t, m)
  {
    if m > 0 {
      IssuesSame(s, t, m - 1);
    }
  }

  // One node changed and its score rose.
  lemma MeasureFalls(s: System, t: System, i: nat)
    requires WellFormed(s) && WellFormed(t) && i < Size(s) == Size(t) && t.nodes == s.nodes[i := t.nodes[i]]
    requires forall j | 0 <= j < Size(s) :: |s.logs[j]| + |s.nodes[j].queued| == |t.logs[j]| + |t.nodes[j].queued|
    requires Score(s.nodes[i], i) < Score(t.nodes[i], i)
    ensures Measure(t) < Measure(s)
  {
    ScoresGrow(s.nodes, i, t.nodes[i], Size(s));
    IssuesSame(s, t, Size(s));
  }

  lemma LogProgress(n: Node, i: nat, logs: seq<seq<Inc>>, cuts: seq<set<int>>, n': Node, inc: Messages.Inc)
    requires NodeOK(n, i, logs, cuts) && i < |logs|
    requires n'.prop == P.OnUpdateLog(n.prop, inc) && n'.delivered == n.delivered && n'.toReceiver == n.toReceiver
    ensures Score(n, i) < Score(n', i)
  {
    ProgressGrows(n, n', i, |logs|, i, 1);
  }

  lemma TimerProgress(n: Node, i: nat, logs: seq<seq<Inc>>, cuts: seq<set<int>>, n': Node, b: Buffer)
    requires NodeOK(n, i, logs, cuts) && i < |logs| && n'.delivered == n.delivered && n.prop.held.None?
    requires b.ranges != map[] && |n'.toReceiver| <= |n.toReceiver| + 1
    requires forall o | o in b.ranges :: 0 <= o < |logs| && b.ranges[o].st == Lo(All(n.prop, i), o) <= b.ranges[o].end
    requires forall o | 0 <= o < |logs| :: Hi(All(n'.prop, i), o) == Hi(All(n.prop, i), o)
    requires forall o | 0 <= o < |logs| :: Lo(All(n'.prop, i), o) == After(b, o, Lo(All(n.prop, i), o))
    requires forall o | 0 <= o < |logs| :: Sent(n'.prop, i, o) >= Sent(n.prop, i, o)
    ensures Score(n, i) < Score(n', i)
  {
    hide Holds;
    var o := Someone(b.ranges);
    assert forall p | 0 <= p < |logs| :: Lo(All(n.prop, i), p) <= Lo(All(n'.prop, i), p);
    ProgressGrows(n, n', i, |logs|, o, 3);
  }

  lemma SendProgress(n: Node, i: nat, logs: seq<seq<Inc>>, cuts: seq<set<int>>, n': Node)
    requires NodeOK(n, i, logs, cuts) && i < |logs| && n.prop.held.Some? && n'.delivered == n.delivered
    requires n'.prop == n.prop.(held := None) && n'.toReceiver == n.toReceiver
    ensures Score(n, i) < Score(n', i)
  {
    hide Holds;
    assert All(n'.prop, i) == All(n.prop, i);
    ProgressGrows(n, n', i, |logs|, i, 1);
  }

  lemma ReceiveProgress(n: Node, i: nat, n': Node, b: Buffer)
    requires Continues(b, n) && b.ranges != map[] && n'.delivered == Delivered(n.delivered, b)
    requires n'.prop == n.prop && n'.toReceiver == n.toReceiver
    ensures Score(n, i) < Score(n', i)
  {
    var o := Someone(b.ranges);
    ProgressGrows(n, n', i, |n.delivered|, o, 1);
  }

  lemma ForwardProgress(n: Node, i: nat, logs: seq<seq<Inc>>, cuts: seq<set<int>>, n': Node)
    requires NodeOK(n, i, logs, cuts) && i < |logs| && n.toProp != [] && n.prop.held.None? && n'.prop.held.None?
    requires n'.prop == n.prop.(store := n'.prop.store, peers := P.Extend(n.prop.peers, n.toProp[0].ranges))
    requires n'.delivered == n.delivered && n'.toReceiver == n.toReceiver
    ensures Score(n, i) < Score(n', i)
  {
    hide Holds;
    var b := n.toProp[0];
    assert b in n.toProp;
    ForwardRanges(n, i, logs, cuts, n'.prop);
    ForwardContinues(n, i, logs, cuts);
    var o := Someone(b.ranges);
    ProgressGrows(n, n', i, |logs|, o, 1);
  }

  lemma LogFalls(s: System, i: nat, at: nat)
    requires Inv(s) && i < Size(s) && DoLog(s, i, at).Next?
    ensures Measure(DoLog(s, i, at).s) < Measure(s)
  {
    hide NodeOK, WireOK, Score;
    var t := DoLog(s, i, at).s;
    LogProgress(s.nodes[i], i, s.logs, s.cuts, t.nodes[i], s.nodes[i].queued[at].inc);
    MeasureFalls(s, t, i);
  }

  lemma SendNowProgress(n: Node, i: nat, logs: seq<seq<Inc>>, cuts: seq<set<int>>, q: P.State, b: Buffer)
    requires NodeOK(n, i, logs, cuts) && i < |logs| && n.prop.held.None? && P.OnTimer(n.prop, i) == Ok((q, P.SendNow(b)))
    requires n.prop.store != map[]
    ensures Score(n, i) < Score(n.(prop := q), i)
  {
    hide Holds;
    OwnIffRange(n.prop, i, logs, cuts);
    FlushParts(n.prop, i, logs, cuts, b.ranges, q);
    TimerSendsNode(n, i, logs, cuts, q, b);
    TimerProgress(n, i, logs, cuts, n.(prop := q), b);
  }

  lemma RecordFirstProgress(n: Node, i: nat, logs: seq<seq<Inc>>, cuts: seq<set<int>>, q: P.State, batch: Buffer, b: Buffer)
    requires NodeOK(n, i, logs, cuts) && i < |logs| && n.prop.held.None? && P.OnTimer(n.prop, i) == Ok((q, P.RecordFirst(batch, b)))
    ensures Score(n, i) < Score(n.(prop := q, toReceiver := n.toReceiver + [batch]), i)
  {
    hide Holds;
    OwnIffRange(n.prop, i, logs, cuts);
    FlushParts(n.prop, i, logs, cuts, b.ranges, q);
    assert forall o | 0 <= o < |logs| :: Sent(q, i, o) == Lo(All(n.prop, i), o);
    TimerProgress(n, i, logs, cuts, n.(prop := q, toReceiver := n.toReceiver + [batch]), b);
  }

  lemma TimerFalls(s: System, i: nat)
    requires Inv(s) && i < Size(s) && DoTimer(s, i).Next?
    ensures Measure(DoTimer(s, i).s) < Measure(s)
  {
    hide NodeOK, WireOK, Score, P.OnTimer;
    var n, t := s.nodes[i], DoTimer(s, i).s;
    match P.OnTimer(n.prop, i) {
      case Ok((q, SendNow(b))) => SendNowProgress(n, i, s.logs, s.cuts, q, b);
      case Ok((q, RecordFirst(batch, b))) => RecordFirstProgress(n, i, s.logs, s.cuts, q, batch, b);
      case _ =>
    }
    MeasureFalls(s, t, i);
  }

  lemma RecordFalls(s: System, i: nat)
    requires Inv(s) && i < Size(s) && DoRecord(s, i).Next?
    ensures Measure(DoRecord(s, i).s) < Measure(s)
  {
    hide NodeOK, WireOK;
    var n, t := s.nodes[i], DoRecord(s, i).s;
    ProgressGrows(n, t.nodes[i], i, |n.delivered|, 0, 0);
    MeasureFalls(s, t, i);
  }

  lemma SendFalls(s: System, i: nat)
    requires Inv(s) && i < Size(s) && DoSend(s, i).Next?
    ensures Measure(DoSend(s, i).s) < Measure(s)
  {
    hide NodeOK, WireOK, Score;
    var t := DoSend(s, i).s;
    SendProgress(s.nodes[i], i, s.logs, s.cuts, t.nodes[i]);
    MeasureFalls(s, t, i);
  }

  lemma ReceiveFalls(s: System, i: nat)
    requires Inv(s) && i < Size(s) && DoReceive(s, i, Repaired).Next?
    ensures Measure(DoReceive(s, i, Repaired).s) < Measure(s)
  {
    hide NodeOK, WireOK, Score, R.OnUpdateBuffer, Holds;
    var t := DoReceive(s, i, Repaired).s;
    HeadContinues(s, i);
    ReceiveProgress(s.nodes[i], i, t.nodes[i], s.wires[i][0]);
    MeasureFalls(s, t, i);
  }

  lemma ForwardFalls(s: System, i: nat)
    requires Inv(s) && i < Size(s) && DoForward(s, i).Next?
    ensures Measure(DoForward(s, i).s) < Measure(s)
  {
    hide NodeOK, WireOK, Score;
    var t := DoForward(s, i).s;
    ForwardProgress(s.nodes[i], i, s.logs, s.cuts, t.nodes[i]);
    MeasureFalls(s, t, i);
  }

  // Every step except a new increment brings the ring closer to rest.
  lemma StepFalls(s: System, a: Action)
    requires Inv(s) && !a.Inc? && Step(s, a, Repaired).Next?
    ensures 0 <= Measure(Step(s, a, Repaired).s) < Measure(s)
  {
    hide Inv, DoLog, DoTimer, DoRecord, DoSend, DoReceive, DoForward, Measure;
    StepKeeps(s, a);
    InvWellFormed(s);
    MeasureNotNegative(Step(s, a, Repaired).s);
    match a
    case Log(i, at) => LogFalls(s, i, at);
    case Timer(i) => TimerFalls(s, i);
    case Record(i) => RecordFalls(s, i);
    case Send(i) => SendFalls(s, i);
    case Receive(i) => ReceiveFalls(s, i);
    case Forward(i) => ForwardFalls(s, i);
  }

  // So a run without new increments has at most Measure(s) steps.
  lemma {:induction false} RunsEnd(s: System, actions: seq<Action>)
    requires Inv(s) && (forall a | a in actions :: !a.Inc?) && Run(s, actions, Repaired).Next?
    ensures |actions| <= Measure(s)
    decreases |actions|
  {
    hide Inv, Step, Measure;
    InvWellFormed(s);
    if actions == [] {
      MeasureNotNegative(s);
    } else {
      StepKeeps(s, actions[0]);
      StepFalls(s, actions[0]);
      RunsEnd(Step(s, actions[0], Repaired).s, actions[1..]);
    }
  }

  // ---- at rest ----

  ghost predicate AtRest(s: System)
    requires WellFormed(s)
  {
    forall a: Action | !a.Inc? :: Step(s, a, Repaired).Disabled?
  }

  ghost predicate Drained(s: System, i: nat)
    requires WellFormed(s) && i < Size(s)
  {
    var n := s.nodes[i];
    && n.queued == [] && n.prop.store == map[] && n.prop.own == map[] && n.prop.held.None?
    && n.toReceiver == [] && n.acks == 0 && n.recv.queue == [] && n.toProp == [] && s.wires[i] == []
  }

  lemma RestDisables(s: System, i: nat)
    requires WellFormed(s) && i < Size(s) && AtRest(s)
    ensures DoRecord(s, i).Disabled? && DoSend(s, i).Disabled? && DoLog(s, i, 0).Disabled?
    ensures DoForward(s, i).Disabled? && DoReceive(s, i, Repaired).Disabled? && DoTimer(s, i).Disabled?
  {
    hide DoRecord, DoSend, DoLog, DoForward, DoReceive, DoTimer;
    assert Step(s, Record(i), Repaired).Disabled?;
    assert Step(s, Send(i), Repaired).Disabled?;
    assert Step(s, Log(i, 0), Repaired).Disabled?;
    assert Step(s, Forward(i), Repaired).Disabled?;
    assert Step(s, Receive(i), Repaired).Disabled?;
    assert Step(s, Timer(i), Repaired).Disabled?;
  }

  lemma HeldOrIdle(n: Node, i: nat, logs: seq<seq<Inc>>, cuts: seq<set<int>>)
    requires NodeOK(n, i, logs, cuts)
    ensures if n.prop.held.None? then n.toReceiver == [] && n.acks == 0 else n.toReceiver != [] || n.acks > 0
  {}

  // Nothing waits in the channels of a node at rest, nor in its store.
  lemma RestEmpties(s: System, i: nat)
    requires Inv(s) && i < Size(s) && AtRest(s)
    ensures var n := s.nodes[i];
            n.queued == [] && n.prop.store == map[] && n.prop.held.None? && n.toReceiver == [] && n.acks == 0
            && n.toProp == [] && s.wires[i] == []
  {
    hide NodeOK, WireOK, AtRest, P.OnTimer, P.OnUpdateBuffer, R.OnUpdateBuffer;
    AtNode(s, i);
    HeldOrIdle(s.nodes[i], i, s.logs, s.cuts);
    RestDisables(s, i);
    TimerWorks(s.nodes[i], i, s.logs, s.cuts);
  }

  lemma TimerWorks(n: Node, i: nat, logs: seq<seq<Inc>>, cuts: seq<set<int>>)
    requires NodeOK(n, i, logs, cuts) && i < |logs|
    ensures n.prop.store != map[] ==> P.OnTimer(n.prop, i).Ok? && !P.OnTimer(n.prop, i).value.1.Nothing?
  {
    OwnIffRange(n.prop, i, logs, cuts);
  }

  // An empty store covers nothing.
  lemma EmptyStore(n: Node, i: nat, o: nat, logs: seq<seq<Inc>>, cuts: seq<set<int>>)
    requires NodeOK(n, i, logs, cuts) && i < |logs| && o < |logs| && n.prop.store == map[] && n.prop.held.None?
    ensures Sent(n.prop, i, o) == Hi(All(n.prop, i), o)
  {
    var lo, hi := Lo(All(n.prop, i), o), Hi(All(n.prop, i), o);
    assert 0 <= lo <= hi <= |logs[o]|;
    var key := if lo < |logs[o]| then logs[o][lo].key else 0;
    assert key !in n.prop.store;
  }

  // At rest every node has delivered every log to its end.
  lemma {:induction false} RestDelivers(s: System, o: nat, j: nat)
    requires Inv(s) && AtRest(s) && o < Size(s) && j < Size(s)
    ensures |s.nodes[j].delivered| == Size(s) && s.nodes[j].delivered[o] == |s.logs[o]|
    decreases Distance(Size(s), o, Pred(Size(s), j))
  {
    hide NodeOK, AtRest;
    var i := Pred(Size(s), j);
    AtNode(s, j);
    AtNode(s, i);
    RestEmpties(s, i);
    RestEmpties(s, j);
    assert WireOK(s.wires[j], s.nodes[i].prop, i, s.nodes[j].delivered, s.logs, s.cuts);
    assert Chain(s.wires[j], o, s.nodes[j].delivered[o], Sent(s.nodes[i].prop, i, o));
    EmptyStore(s.nodes[i], i, o, s.logs, s.cuts);
    if i == o {
      OwnEnd(s, i);
    } else {
      ForwardChain(s, i, o);
      RestDelivers(s, o, i);
    }
  }

  lemma RestQueue(n: Node, i: nat, logs: seq<seq<Inc>>, cuts: seq<set<int>>)
    requires NodeOK(n, i, logs, cuts) && i < |logs| && n.toReceiver == [] && n.delivered[i] == Lo(All(n.prop, i), i)
    ensures n.recv.queue == []
  {
    hide StoreOK, OwnOK, HeldOK, ForwardOK, TableOK, Holds;
    assert Batches(n) == n.recv.queue;
    if n.recv.queue != [] {
      assert n.recv.queue[0] in Batches(n);
      ChainBounds(Batches(n), i, n.delivered[i], Lo(All(n.prop, i), i), 0);
    }
  }

  lemma RestOwn(n: Node, i: nat, logs: seq<seq<Inc>>, cuts: seq<set<int>>)
    requires NodeOK(n, i, logs, cuts) && i < |logs| && n.prop.store == map[] && n.prop.held.None?
    ensures n.prop.own == map[]
  {
    EmptyStore(n, i, i, logs, cuts);
    OwnIffRange(n.prop, i, logs, cuts);
  }

  // A ring with no step left has nothing anywhere: no channel, no store, no queue of own batches.
  lemma RestDrains(s: System, i: nat)
    requires Inv(s) && AtRest(s) && i < Size(s)
    ensures Drained(s, i)
  {
    hide NodeOK, AtRest, WireOK;
    AtNode(s, i);
    RestEmpties(s, i);
    RestDelivers(s, i, i);
    EmptyStore(s.nodes[i], i, i, s.logs, s.cuts);
    OwnEnd(s, i);
    RestQueue(s.nodes[i], i, s.logs, s.cuts);
    RestOwn(s.nodes[i], i, s.logs, s.cuts);
  }

  // ---- agreement ----

  // Everything the first m applications issued to key k.
  function IssuedByAll(actions: seq<Action>, m: nat, k: int): int {
    if m == 0 then 0 else IssuedByAll(actions, m - 1, k) + Issued(actions, m - 1, k)
  }

  lemma {:induction false} DeliveredAll(s: System, actions: seq<Action>, i: nat, m: nat, k: int)
    requires WellFormed(s) && i < Size(s) && m <= Size(s) == |s.nodes[i].delivered|
    requires forall o: nat | o < Size(s) :: s.nodes[i].delivered[o] == |s.logs[o]| && s.nodes[o].queued == []
    requires forall o: nat | o < Size(s) :: OwnSum(s, o, k) == Issued(actions, o, k)
    ensures Others(s.logs, s.nodes[i].delivered, i, m, k) + (if i < m then Issued(actions, i, k) else 0) == IssuedByAll(actions, m, k)
  {
    if m > 0 {
      DeliveredAll(s, actions, i, m - 1, k);
      assert OwnSum(s, m - 1, k) == Issued(actions, m - 1, k);
    }
  }

  // Wherever a run comes to rest, every node's value is the total of all increments issued anywhere: the tables agree.
  lemma TablesAgree(n: nat, actions: seq<Action>, i: nat, k: int)
    requires n > 0 && i < n && Run(Start(n), actions, Repaired).Next? && AtRest(Run(Start(n), actions, Repaired).s)
    ensures Drained(Run(Start(n), actions, Repaired).s, i)
    ensures Get(Run(Start(n), actions, Repaired).s.nodes[i].recv.table, k) == Wrap(IssuedByAll(actions, n, k))
  {
    hide Run, Inv, AtRest, Wrap, OwnSum;
    var s := Run(Start(n), actions, Repaired).s;
    StartKeeps(n);
    RunKeeps(Start(n), actions);
    RestDrains(s, i);
    ValueIs(s, i, k);
    forall o: nat | o < n
      ensures s.nodes[i].delivered[o] == |s.logs[o]| && s.nodes[o].queued == [] && OwnSum(s, o, k) == Issued(actions, o, k)
    {
      RestDelivers(s, o, i);
      RestDrains(s, o);
      OwnSumRun(Start(n), actions, Repaired, o, k);
      StartSum(n, o, k);
    }
    DeliveredAll(s, actions, i, n, k);
  }

  lemma StartSum(n: nat, o: nat, k: int)
    requires n > 0 && o < n
    ensures OwnSum(Start(n), o, k) == 0
  {}

  // From every reachable state some run without new increments comes to rest.
  lemma {:induction false} RestReachable(s: System) returns (actions: seq<Action>)
    requires Inv(s)
    ensures forall a | a in actions :: !a.Inc?
    ensures WellFormed(s) && Run(s, actions, Repaired).Next? && AtRest(Run(s, actions, Repaired).s)
    decreases if Inv(s) then Measure(s) else 0
  {
    hide Inv, Step, Measure;
    InvWellFormed(s);
    MeasureNotNegative(s);
    if AtRest(s) {
      actions := [];
    } else {
      var a: Action :| !a.Inc? && !Step(s, a, Repaired).Disabled?;
      StepKeeps(s, a);
      StepFalls(s, a);
      var rest := RestReachable(Step(s, a, Repaired).s);
      actions := [a] + rest;
      assert actions[1..] == rest;
    }
  }
}
