/** The ring while its threads terminate one by one, in any order: a propagator that has been told to stop drops what it has not
    sent and ignores what still comes, a receiver that has been told to stop drops its queue and ignores what still comes. To
    everybody else such a thread looks like one that has not got round to its messages yet, so every such run follows a run of
    the plain ring. */
module Stopping {
  import opened Int32
  import opened Messages
  import opened Ring
  import opened Invariant
  import opened RingTheorems
  import P = PropagatorSpec
  import R = ReceiverSpec

  datatype Stoppable = Stoppable(ring: System, propOff: set<nat>, recvOff: set<nat>)

  datatype Act = Go(a: Action) | StopProp(i: nat) | StopRecv(i: nat)

  datatype Effect = Nothing | Fails(check: Check) | Goes(t: Stoppable)

  function Begin(n: nat): Stoppable {
    Stoppable(Start(n), {}, {})
  }

  function Lift(t: Stoppable, r: Outcome): Effect {
    match r
    case Disabled => Nothing
    case Abort(c) => Fails(c)
    case Next(s) => Goes(t.(ring := s))
  }

  // The signal is read between messages, so never while an acknowledgement is awaited.
  function DoStopProp(t: Stoppable, i: nat): (r: Effect)
    requires WellFormed(t.ring) && i < Size(t.ring)
    ensures r.Goes? ==> WellFormed(r.t.ring) && Size(r.t.ring) == Size(t.ring)
  {
    var n := t.ring.nodes[i];
    if i in t.propOff || n.prop.held.Some? then Nothing
    else Goes(t.(ring := WithNode(t.ring, i, n.(prop := n.prop.(store := map[]))), propOff := t.propOff + {i}))
  }

  function DoStopRecv(t: Stoppable, i: nat): (r: Effect)
    requires WellFormed(t.ring) && i < Size(t.ring)
    ensures r.Goes? ==> WellFormed(r.t.ring) && Size(r.t.ring) == Size(t.ring)
  {
    var n := t.ring.nodes[i];
    if i in t.recvOff then Nothing
    else Goes(t.(ring := WithNode(t.ring, i, n.(recv := n.recv.(queue := []))), recvOff := t.recvOff + {i}))
  }

  // A stopped propagator: nothing to flush, logs and forwarded buffers are read and ignored.
  function OffProp(t: Stoppable, a: Action): (r: Effect)
    requires WellFormed(t.ring) && a.i < Size(t.ring) && (a.Log? || a.Forward? || a.Timer?)
    ensures r.Goes? ==> WellFormed(r.t.ring) && Size(r.t.ring) == Size(t.ring)
  {
    var n := t.ring.nodes[a.i];
    match a
    case Log(i, at) =>
      if at >= |n.queued| || exists j :: 0 <= j < at && n.queued[j].thread == n.queued[at].thread then Nothing
      else Goes(t.(ring := WithNode(t.ring, i, n.(queued := n.queued[..at] + n.queued[at + 1..]))))
    case Forward(i) => if n.toProp == [] then Nothing else Goes(t.(ring := WithNode(t.ring, i, n.(toProp := n.toProp[1..]))))
    case Timer(i) => Nothing
  }

  // A stopped receiver: own batches are acknowledged and destroyed, received buffers are ignored.
  function OffRecv(t: Stoppable, a: Action): (r: Effect)
    requires WellFormed(t.ring) && a.i < Size(t.ring) && (a.Record? || a.Receive?)
    ensures r.Goes? ==> WellFormed(r.t.ring) && Size(r.t.ring) == Size(t.ring)
  {
    var n := t.ring.nodes[a.i];
    match a
    case Record(i) =>
      if n.toReceiver == [] then Nothing
      else Goes(t.(ring := WithNode(t.ring, i, n.(toReceiver := n.toReceiver[1..], acks := n.acks + 1))))
    case Receive(i) =>
      if t.ring.wires[i] == [] then Nothing else Goes(t.(ring := t.ring.(wires := t.ring.wires[i := t.ring.wires[i][1..]])))
  }

  function Step(t: Stoppable, act: Act): (r: Effect)
    requires WellFormed(t.ring)
    ensures r.Goes? ==> WellFormed(r.t.ring) && Size(r.t.ring) == Size(t.ring)
  {
    match act
    case StopProp(i) => if i >= Size(t.ring) then Nothing else DoStopProp(t, i)
    case StopRecv(i) => if i >= Size(t.ring) then Nothing else DoStopRecv(t, i)
    case Go(a) =>
      if a.i >= Size(t.ring) then Nothing
      else if a.i in t.propOff && (a.Log? || a.Forward? || a.Timer?) then OffProp(t, a)
      else if a.i in t.recvOff && (a.Record? || a.Receive?) then OffRecv(t, a)
      else Lift(t, Ring.Step(t.ring, a, Repaired))
  }

  function Run(t: Stoppable, acts: seq<Act>): (r: Effect)
    requires WellFormed(t.ring)
    ensures r.Goes? ==> WellFormed(r.t.ring) && Size(r.t.ring) == Size(t.ring)
    decreases |acts|
  {
    if acts == [] then Goes(t)
    else match Step(t, acts[0])
      case Goes(u) => Run(u, acts[1..])
      case stop => stop
  }

  // ---- the plain ring it follows ----

  // Off threads have fallen behind; everything else is the same.
  ghost predicate NodeMatches(m: Node, n: Node, propOff: bool, recvOff: bool) {
    && m.recv.table == n.recv.table && m.toReceiver == n.toReceiver && m.acks == n.acks && m.prop.held == n.prop.held
    && (if propOff then m.prop.held.None? else m.queued == n.queued && m.prop == n.prop && m.toProp == n.toProp)
    && (!recvOff ==> m.recv == n.recv)
  }

  ghost predicate Matches(t: Stoppable, s: System): (m: bool)
    ensures m ==> WellFormed(t.ring) && WellFormed(s) && Size(t.ring) == Size(s)
  {
    && WellFormed(t.ring) && WellFormed(s) && Size(t.ring) == Size(s)
    && (forall i: nat | i < Size(s) :: NodeMatches(t.ring.nodes[i], s.nodes[i], i in t.propOff, i in t.recvOff))
    && (forall i: nat | i < Size(s) && i !in t.recvOff :: t.ring.wires[i] == s.wires[i])
  }

  // The plain ring's answer to an act: nothing when a stopped thread ignores a message, else the same step.
  function Follow(t: Stoppable, act: Act): seq<Action> {
    match act
    case Go(a) =>
      if (a.i in t.propOff && (a.Log? || a.Forward? || a.Timer?)) || (a.i in t.recvOff && a.Receive?) then [] else [a]
    case _ => []
  }

  lemma StopFollows(t: Stoppable, s: System, act: Act)
    requires Matches(t, s) && (act.StopProp? || act.StopRecv?) && Step(t, act).Goes?
    ensures Matches(Step(t, act).t, s)
  {
    forall i: nat | i < Size(s)
      ensures NodeMatches(Step(t, act).t.ring.nodes[i], s.nodes[i], i in Step(t, act).t.propOff, i in Step(t, act).t.recvOff)
    {
      assert NodeMatches(t.ring.nodes[i], s.nodes[i], i in t.propOff, i in t.recvOff);
    }
  }

  lemma IgnoreFollows(t: Stoppable, s: System, a: Action)
    requires Matches(t, s) && Follow(t, Go(a)) == [] && Step(t, Go(a)).Goes?
    ensures Matches(Step(t, Go(a)).t, s)
  {
    assert NodeMatches(t.ring.nodes[a.i], s.nodes[a.i], a.i in t.propOff, a.i in t.recvOff);
    forall i: nat | i < Size(s)
      ensures NodeMatches(Step(t, Go(a)).t.ring.nodes[i], s.nodes[i], i in t.propOff, i in t.recvOff)
    {
      assert NodeMatches(t.ring.nodes[i], s.nodes[i], i in t.propOff, i in t.recvOff);
    }
  }

  // Only node i and at most the wire leaving it or entering it have changed, alike in both.
  lemma Rematch(t: Stoppable, s: System, t': Stoppable, s': System, i: nat)
    requires Matches(t, s) && i < Size(s) && WellFormed(t'.ring) && WellFormed(s') && t'.propOff == t.propOff && t'.recvOff == t.recvOff
    requires Size(t'.ring) == Size(s') == Size(s)
    requires t'.ring.nodes == t.ring.nodes[i := t'.ring.nodes[i]] && s'.nodes == s.nodes[i := s'.nodes[i]]
    requires NodeMatches(t'.ring.nodes[i], s'.nodes[i], i in t.propOff, i in t.recvOff)
    requires forall j: nat | j < Size(s) && j !in t.recvOff :: t'.ring.wires[j] == s'.wires[j]
    ensures Matches(t', s')
  {
    hide NodeMatches;
    forall j: nat | j < Size(s) ensures NodeMatches(t'.ring.nodes[j], s'.nodes[j], j in t.propOff, j in t.recvOff) {
      assert NodeMatches(t.ring.nodes[j], s.nodes[j], j in t.propOff, j in t.recvOff);
    }
  }

  // A step that the stoppable ring and the plain ring take together.
  ghost predicate Together(t: Stoppable, s: System, a: Action)
    requires Matches(t, s)
  {
    match Step(t, Go(a))
    case Nothing => true
    case Fails(c) => Ring.Step(s, a, Repaired) == Abort(c)
    case Goes(t') => Ring.Step(s, a, Repaired).Next? && Matches(t', Ring.Step(s, a, Repaired).s)
  }

  lemma IncTogether(t: Stoppable, s: System, i: nat, thread: int, key: int, delta: Value)
    requires Matches(t, s) && i < Size(s)
    ensures Together(t, s, Action.Inc(i, thread, key, delta))
  {
    hide AddAt;
    if DoInc(t.ring, i, thread, key, delta).Next? {
      var t', s' := t.(ring := DoInc(t.ring, i, thread, key, delta).s), DoInc(s, i, thread, key, delta).s;
      assert NodeMatches(t.ring.nodes[i], s.nodes[i], i in t.propOff, i in t.recvOff);
      Rematch(t, s, t', s', i);
    }
  }

  lemma LogTogether(t: Stoppable, s: System, i: nat, at: nat)
    requires Matches(t, s) && i < Size(s) && i !in t.propOff
    ensures Together(t, s, Log(i, at))
  {
    hide P.OnUpdateLog;
    assert NodeMatches(t.ring.nodes[i], s.nodes[i], i in t.propOff, i in t.recvOff);
    if DoLog(t.ring, i, at).Next? {
      LogKeepsHeld(s.nodes[i].prop, s.nodes[i].queued[at].inc);
      Rematch(t, s, t.(ring := DoLog(t.ring, i, at).s), DoLog(s, i, at).s, i);
    }
  }

  lemma LogKeepsHeld(p: P.State, inc: Messages.Inc)
    ensures P.OnUpdateLog(p, inc).held == p.held
  {}

  lemma TimerTogether(t: Stoppable, s: System, i: nat)
    requires Matches(t, s) && i < Size(s) && i !in t.propOff
    ensures Together(t, s, Timer(i))
  {
    hide P.OnTimer;
    assert NodeMatches(t.ring.nodes[i], s.nodes[i], i in t.propOff, i in t.recvOff);
    if DoTimer(t.ring, i).Next? {
      Rematch(t, s, t.(ring := DoTimer(t.ring, i).s), DoTimer(s, i).s, i);
    }
  }

  lemma RecordTogether(t: Stoppable, s: System, i: nat)
    requires Matches(t, s) && i < Size(s)
    ensures Together(t, s, Record(i))
  {
    assert NodeMatches(t.ring.nodes[i], s.nodes[i], i in t.propOff, i in t.recvOff);
    if Step(t, Go(Record(i))).Goes? {
      Rematch(t, s, Step(t, Go(Record(i))).t, DoRecord(s, i).s, i);
    }
  }

  lemma SendTogether(t: Stoppable, s: System, i: nat)
    requires Matches(t, s) && i < Size(s)
    ensures Together(t, s, Send(i))
  {
    assert NodeMatches(t.ring.nodes[i], s.nodes[i], i in t.propOff, i in t.recvOff);
    if DoSend(t.ring, i).Next? {
      Rematch(t, s, t.(ring := DoSend(t.ring, i).s), DoSend(s, i).s, i);
    }
  }

  lemma ReceiveTogether(t: Stoppable, s: System, i: nat)
    requires Matches(t, s) && i < Size(s) && i !in t.recvOff
    ensures Together(t, s, Receive(i))
  {
    hide R.OnUpdateBuffer;
    assert NodeMatches(t.ring.nodes[i], s.nodes[i], i in t.propOff, i in t.recvOff);
    if DoReceive(t.ring, i, Repaired).Next? {
      Rematch(t, s, t.(ring := DoReceive(t.ring, i, Repaired).s), DoReceive(s, i, Repaired).s, i);
    }
  }

  lemma ForwardTogether(t: Stoppable, s: System, i: nat)
    requires Matches(t, s) && i < Size(s) && i !in t.propOff
    ensures Together(t, s, Forward(i))
  {
    hide P.OnUpdateBuffer;
    assert NodeMatches(t.ring.nodes[i], s.nodes[i], i in t.propOff, i in t.recvOff);
    if DoForward(t.ring, i).Next? {
      Rematch(t, s, t.(ring := DoForward(t.ring, i).s), DoForward(s, i).s, i);
    }
  }

  lemma StepTogether(t: Stoppable, s: System, a: Action)
    requires Matches(t, s) && Follow(t, Go(a)) != []
    ensures Together(t, s, a)
  {
    hide Together;
    if a.i >= Size(s) {
      DisabledTogether(t, s, a);
    } else {
      match a
      case Inc(i, thread, key, delta) => IncTogether(t, s, i, thread, key, delta);
      case Log(i, at) => LogTogether(t, s, i, at);
      case Timer(i) => TimerTogether(t, s, i);
      case Record(i) => RecordTogether(t, s, i);
      case Send(i) => SendTogether(t, s, i);
      case Receive(i) => ReceiveTogether(t, s, i);
      case Forward(i) => ForwardTogether(t, s, i);
    }
  }

  lemma DisabledTogether(t: Stoppable, s: System, a: Action)
    requires Matches(t, s) && a.i >= Size(s)
    ensures Together(t, s, a)
  {}

  // The increments to key k that node i's application issued, stopped or not.
  function IssuedIn(acts: seq<Act>, i: int, k: int): int {
    if acts == [] then 0
    else (if acts[0].Go? then Issued([acts[0].a], i, k) else 0) + IssuedIn(acts[1..], i, k)
  }

  // Every run of a ring whose threads stop at any time follows a run of the plain ring, and so never fails a check.
  lemma {:induction false} Follows(t: Stoppable, s: System, acts: seq<Act>) returns (plain: seq<Action>)
    requires Matches(t, s) && Inv(s)
    ensures !Run(t, acts).Fails?
    ensures Run(t, acts).Goes? ==> Ring.Run(s, plain, Repaired).Next? && Matches(Run(t, acts).t, Ring.Run(s, plain, Repaired).s)
    ensures Run(t, acts).Goes? ==> forall i, k :: Issued(plain, i, k) == IssuedIn(acts, i, k)
    decreases |acts|
  {
    hide Step, Ring.Step, Inv, Matches, Together;
    if acts == [] {
      return [];
    }
    var head := Follow(t, acts[0]);
    var s' := FollowOne(t, s, acts[0]);
    if !Step(t, acts[0]).Goes? {
      return [];
    }
    var rest := Follows(Step(t, acts[0]).t, s', acts[1..]);
    plain := head + rest;
    if head == [] {
      assert plain == rest;
    } else {
      assert plain[1..] == rest;
    }
    forall i, k ensures Run(t, acts).Goes? ==> Issued(plain, i, k) == IssuedIn(acts, i, k) {
      IssuedJoins(t, acts[0], rest, i, k);
    }
  }

  // One act, and where it leaves the plain ring.
  lemma FollowOne(t: Stoppable, s: System, act: Act) returns (s': System)
    requires Matches(t, s) && Inv(s)
    ensures !Step(t, act).Fails?
    ensures Step(t, act).Goes? ==> Matches(Step(t, act).t, s') && Inv(s')
    ensures Step(t, act).Goes? ==>
              if Follow(t, act) == [] then s' == s
              else act.Go? && Follow(t, act) == [act.a] && Ring.Step(s, act.a, Repaired) == Next(s')
  {
    s' := s;
    hide Inv, Matches, Ring.Step;
    if act.Go? && Follow(t, act) != [] {
      StepTogether(t, s, act.a);
      StepKeeps(s, act.a);
      if Step(t, act).Goes? {
        s' := Ring.Step(s, act.a, Repaired).s;
      }
    } else {
      NoAbort(t, act);
      if Step(t, act).Goes? {
        if act.Go? {
          IgnoreFollows(t, s, act.a);
        } else {
          StopFollows(t, s, act);
        }
      }
    }
  }

  lemma NoAbort(t: Stoppable, act: Act)
    requires WellFormed(t.ring) && Follow(t, act) == []
    ensures !Step(t, act).Fails?
  {}

  lemma IssuedJoins(t: Stoppable, act: Act, rest: seq<Action>, i: int, k: int)
    ensures Issued(Follow(t, act) + rest, i, k) == (if act.Go? then Issued([act.a], i, k) else 0) + Issued(rest, i, k)
  {
    var head := Follow(t, act);
    if head == [] {
      assert head + rest == rest;
      assert act.Go? ==> [act.a][1..] == [];
    } else {
      assert (head + rest)[1..] == rest && [act.a][1..] == [];
    }
  }

  // No check fails while some threads terminate and others still propagate, in any order and at any time; and what a node
  // reads is still the sum of all its own increments and, for every other origin, of a prefix of what that one logged.
  lemma StoppingIsSafe(n: nat, acts: seq<Act>, i: nat, k: int) returns (s: System)
    requires n > 0 && i < n
    ensures !Run(Begin(n), acts).Fails?
    ensures Run(Begin(n), acts).Goes? ==>
              && Inv(s) && Size(s) == n && |s.nodes[i].delivered| == |s.logs| == n
              && (forall o | 0 <= o < n :: 0 <= s.nodes[i].delivered[o] <= |s.logs[o]|)
              && Get(Run(Begin(n), acts).t.ring.nodes[i].recv.table, k)
                 == Wrap(IssuedIn(acts, i, k) + Others(s.logs, s.nodes[i].delivered, i, n, k))
  {
    hide Run, Ring.Run, Inv, Wrap;
    StartKeeps(n);
    BeginMatches(n);
    var plain := Follows(Begin(n), Start(n), acts);
    s := Start(n);
    if Run(Begin(n), acts).Goes? {
      s := Ring.Run(Start(n), plain, Repaired).s;
      RunKeeps(Start(n), plain);
      ExactlyOnce(n, plain, i, k);
      assert NodeMatches(Run(Begin(n), acts).t.ring.nodes[i], s.nodes[i], i in Run(Begin(n), acts).t.propOff, i in Run(Begin(n), acts).t.recvOff);
    }
  }

  lemma BeginMatches(n: nat)
    requires n > 0
    ensures Matches(Begin(n), Start(n))
  {}

  // ---- what a stopped thread still does ----

  // The signal is taken once, by a propagator not while it waits for an acknowledgement. A stopped thread goes on reading
  // whatever arrives and sends nothing of its own accord.
  lemma StoppedReads(t: Stoppable, i: nat)
    requires WellFormed(t.ring) && i < Size(t.ring)
    ensures Step(t, StopProp(i)).Goes? <==> i !in t.propOff && t.ring.nodes[i].prop.held.None?
    ensures Step(t, StopRecv(i)).Goes? <==> i !in t.recvOff
    ensures i in t.propOff ==> (Step(t, Go(Forward(i))).Goes? <==> t.ring.nodes[i].toProp != []) && Step(t, Go(Timer(i))).Nothing?
    ensures i in t.propOff ==> forall at: nat ::
              Step(t, Go(Log(i, at))).Goes?
              <==> var q := t.ring.nodes[i].queued;
                   at < |q| && forall j | 0 <= j < at :: q[j].thread != q[at].thread
    ensures i in t.recvOff ==> (Step(t, Go(Record(i))).Goes? <==> t.ring.nodes[i].toReceiver != [])
    ensures i in t.recvOff ==> (Step(t, Go(Receive(i))).Goes? <==> t.ring.wires[i] != [])
  {
    hide Lift, Ring.Step;
  }

  // What stopping drops: the store, or the queue of own batches. Everything else stays.
  lemma StoppingDrops(t: Stoppable, i: nat)
    requires WellFormed(t.ring) && i < Size(t.ring)
    ensures Step(t, StopProp(i)).Goes? ==>
              var u, p := Step(t, StopProp(i)).t, t.ring.nodes[i].prop;
              && u.ring.nodes[i].prop == P.State(map[], p.own, p.ownRange, p.peers, p.held) && u.propOff == t.propOff + {i}
              && u == t.(ring := u.ring, propOff := u.propOff) && u.ring == t.ring.(nodes := u.ring.nodes)
              && u.ring.nodes == t.ring.nodes[i := t.ring.nodes[i].(prop := u.ring.nodes[i].prop)]
    ensures Step(t, StopRecv(i)).Goes? ==>
              var u, r := Step(t, StopRecv(i)).t, t.ring.nodes[i].recv;
              && u.ring.nodes[i].recv == R.State(r.table, []) && u.recvOff == t.recvOff + {i}
              && u == t.(ring := u.ring, recvOff := u.recvOff) && u.ring == t.ring.(nodes := u.ring.nodes)
              && u.ring.nodes == t.ring.nodes[i := t.ring.nodes[i].(recv := u.ring.nodes[i].recv)]
  {}

  // A stopped propagator holds what it held, and its wire gets nothing more. It reads the oldest forwarded buffer, and a log.
  ghost predicate PropStays(t: Stoppable, u: Stoppable, a: Action, i: nat)
    requires WellFormed(t.ring) && WellFormed(u.ring) && i < Size(t.ring) == Size(u.ring)
  {
    var m, n := t.ring.nodes[i], u.ring.nodes[i];
    var wire := Succ(Size(t.ring), i);
    && n.prop == m.prop && |u.ring.wires[wire]| <= |t.ring.wires[wire]|
    && (if a == Forward(i) then m.toProp != [] && n.toProp == m.toProp[1..]
        else n.toProp == m.toProp || (a == Receive(i) && i !in t.recvOff))
    && match a
       case Log(j, at) => if j == i then at < |m.queued| && n.queued == m.queued[..at] + m.queued[at + 1..] else n.queued == m.queued
       case Inc(j, _, _, _) => j == i || n.queued == m.queued
       case _ => n.queued == m.queued
  }

  // A stopped receiver's queue stays empty, its table changes only by the node's own increments, nothing more is passed on to
  // the propagator, and every own batch it reads is acknowledged. It reads the oldest batch and the oldest buffer.
  ghost predicate RecvStays(t: Stoppable, u: Stoppable, a: Action, i: nat)
    requires WellFormed(t.ring) && WellFormed(u.ring) && i < Size(t.ring) == Size(u.ring)
  {
    var m, n := t.ring.nodes[i], u.ring.nodes[i];
    && (m.recv.queue == [] ==> n.recv.queue == []) && (!(a.Inc? && a.i == i) ==> n.recv.table == m.recv.table)
    && |n.toProp| <= |m.toProp|
    && (if a == Record(i) then m.toReceiver != [] && n.toReceiver == m.toReceiver[1..] && n.acks == m.acks + 1
        else n.acks <= m.acks)
    && (if a == Receive(i) then t.ring.wires[i] != [] && u.ring.wires[i] == t.ring.wires[i][1..]
        else |t.ring.wires[i]| <= |u.ring.wires[i]|)
  }

  lemma PropStaysOff(t: Stoppable, a: Action, i: nat)
    requires WellFormed(t.ring) && i < Size(t.ring) && Step(t, Go(a)).Goes?
    ensures Step(t, Go(a)).t.propOff == t.propOff && Step(t, Go(a)).t.recvOff == t.recvOff
    ensures i in t.propOff && t.ring.nodes[i].prop.held.None? ==> PropStays(t, Step(t, Go(a)).t, a, i)
  {
    hide P.OnUpdateBuffer, R.OnUpdateBuffer, R.OnUpdateBufferShipped, P.OnUpdateLog, AddAt;
  }

  lemma RecvStaysOff(t: Stoppable, a: Action, i: nat)
    requires WellFormed(t.ring) && i < Size(t.ring) && Step(t, Go(a)).Goes?
    ensures i in t.recvOff ==> RecvStays(t, Step(t, Go(a)).t, a, i)
  {
    hide P.OnUpdateBuffer, R.OnUpdateBuffer, R.OnUpdateBufferShipped, P.OnUpdateLog, AddAt;
  }

  // So in every run: a stopped propagator has nothing to send, then and ever after, and a stopped receiver no own batches.
  lemma {:induction false} StoppedForever(t: Stoppable, acts: seq<Act>, i: nat)
    requires WellFormed(t.ring) && i < Size(t.ring) && Run(t, acts).Goes?
    requires i in t.propOff ==> t.ring.nodes[i].prop.store == map[] && t.ring.nodes[i].prop.held.None?
    requires i in t.recvOff ==> t.ring.nodes[i].recv.queue == []
    ensures var u := Run(t, acts).t;
            && t.propOff <= u.propOff && t.recvOff <= u.recvOff
            && (i in u.propOff ==> u.ring.nodes[i].prop.store == map[] && u.ring.nodes[i].prop.held.None?)
            && (i in u.recvOff ==> u.ring.nodes[i].recv.queue == [])
            && (i in t.propOff ==> u.ring.nodes[i].prop == t.ring.nodes[i].prop)
    decreases |acts|
  {
    hide Step, Ring.Step;
    if acts != [] {
      StoppedOnce(t, acts[0], i);
      StoppedForever(Step(t, acts[0]).t, acts[1..], i);
    }
  }

  lemma StoppedOnce(t: Stoppable, act: Act, i: nat)
    requires WellFormed(t.ring) && i < Size(t.ring) && Step(t, act).Goes?
    requires i in t.propOff ==> t.ring.nodes[i].prop.store == map[] && t.ring.nodes[i].prop.held.None?
    requires i in t.recvOff ==> t.ring.nodes[i].recv.queue == []
    ensures var u := Step(t, act).t;
            && t.propOff <= u.propOff && t.recvOff <= u.recvOff
            && (i in u.propOff ==> u.ring.nodes[i].prop.store == map[] && u.ring.nodes[i].prop.held.None?)
            && (i in u.recvOff ==> u.ring.nodes[i].recv.queue == [])
            && (i in t.propOff ==> u.ring.nodes[i].prop == t.ring.nodes[i].prop)
  {
    hide Step;
    match act
    case Go(a) => PropStaysOff(t, a, i); RecvStaysOff(t, a, i);
    case StopProp(j) => StopOnce(t, act, j);
    case StopRecv(j) => StopOnce(t, act, j);
  }

  lemma StopOnce(t: Stoppable, act: Act, j: nat)
    requires WellFormed(t.ring) && (act == StopProp(j) || act == StopRecv(j)) && Step(t, act).Goes?
    ensures j < Size(t.ring)
    ensures act.StopProp? ==> j !in t.propOff && t.ring.nodes[j].prop.held.None?
    ensures var u := Step(t, act).t;
            if act.StopProp? then
              u == t.(propOff := t.propOff + {j},
                      ring := WithNode(t.ring, j, t.ring.nodes[j].(prop := t.ring.nodes[j].prop.(store := map[]))))
            else
              u == t.(recvOff := t.recvOff + {j},
                      ring := WithNode(t.ring, j, t.ring.nodes[j].(recv := t.ring.nodes[j].recv.(queue := []))))
  {}
}
