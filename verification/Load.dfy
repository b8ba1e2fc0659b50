/** The load of update traffic on a ring, which the shutdown protocol keeps in place of the updates: how many hops each
    increment named by a buffer has still to make until it is back at its origin. */
module Load {
  import opened Messages
  import P = PropagatorSpec
  import R = ReceiverSpec

  function Length(r: Range): nat {
    if r.Empty() then 0 else r.end - r.st + 1
  }

  // From a delivery at node `at` to the one at node o, in a ring of n.
  function Hops(n: nat, at: nat, o: nat): (h: nat)
    requires at < n && o < n
    ensures 1 <= h <= n && (at + h - 1) % n == o
  {
    if o >= at then o - at + 1 else o + n - at + 1
  }

  // The load named by some ranges as they are delivered at node `at`, over the first m origins.
  function Sum(n: nat, at: nat, ranges: map<int, Range>, m: nat): nat
    requires at < n && m <= n
  {
    if m == 0 then 0 else Sum(n, at, ranges, m - 1) + At(n, at, ranges, m - 1)
  }

  function At(n: nat, at: nat, ranges: map<int, Range>, o: nat): nat
    requires at < n && o < n
  {
    if o in ranges then Length(ranges[o]) * Hops(n, at, o) else 0
  }

  function Next(n: nat, at: nat): nat
    requires at < n
  {
    if at + 1 == n then 0 else at + 1
  }

  lemma OneMore(a: int, b: int)
    ensures a * (b + 1) == a * b + a
  {}

  // One hop on, everything that is not home yet has one hop less to make.
  lemma {:induction false} SumFalls(n: nat, at: nat, ranges: map<int, Range>, m: nat)
    requires at < n && m <= n
    ensures Sum(n, Next(n, at), ranges - {at}, m) <= Sum(n, at, ranges, m)
    ensures (exists o | 0 <= o < m && o in ranges :: !ranges[o].Empty()) ==>
              Sum(n, Next(n, at), ranges - {at}, m) < Sum(n, at, ranges, m)
  {
    if m > 0 {
      SumFalls(n, at, ranges, m - 1);
      var o := m - 1;
      if o in ranges && o != at {
        assert Hops(n, Next(n, at), o) + 1 == Hops(n, at, o);
        OneMore(Length(ranges[o]), Hops(n, Next(n, at), o));
      } else if o in ranges {
        assert Hops(n, at, o) == 1;
      }
    }
  }

  // A delivered buffer leaves strictly less load than it brought, whatever the receiver forwards.
  lemma ForwardedIsLess(n: nat, at: nat, r: R.State, b: Buffer)
    requires at < n && (forall o | o in b.ranges :: 0 <= o < n && !b.ranges[o].Empty()) && b.ranges != map[]
    ensures match R.OnUpdateBuffer(r, at, b)
            case Ok(done) =>
              (if done.forward.Some? then Sum(n, Next(n, at), done.forward.value.ranges, n) else 0) < Sum(n, at, b.ranges, n)
            case Fatal(_) => true
  {
    if forall o :: o !in b.ranges {
      assert false;
    }
    var o :| o in b.ranges;
    SumFalls(n, at, b.ranges, n);
    assert at !in b.ranges ==> b.ranges - {at} == b.ranges;
  }

  // At one origin.
  lemma MergedAt(n: nat, at: nat, peers: map<int, Range>, ranges: map<int, Range>, o: nat)
    requires at < n && o < n && P.Contiguous(peers, ranges) && (o in peers ==> peers[o].st <= peers[o].end + 1)
    requires o in ranges ==> !ranges[o].Empty()
    ensures At(n, at, P.Extend(peers, ranges), o) == At(n, at, peers, o) + At(n, at, ranges, o)
  {
    if o in peers && o in ranges {
      Distributes(Length(peers[o]), Length(ranges[o]), Hops(n, at, o));
    }
  }

  lemma Distributes(a: int, b: int, c: int)
    ensures (a + b) * c == a * c + b * c
  {}

  // Merging a buffer adds its load to what is already held.
  lemma {:induction false} MergedAddsUp(n: nat, at: nat, peers: map<int, Range>, ranges: map<int, Range>, m: nat)
    requires at < n && m <= n && P.Contiguous(peers, ranges)
    requires forall o | o in peers :: peers[o].st <= peers[o].end + 1
    requires forall o | o in ranges :: !ranges[o].Empty()
    ensures Sum(n, at, P.Extend(peers, ranges), m) == Sum(n, at, peers, m) + Sum(n, at, ranges, m)
  {
    if m > 0 {
      hide At, P.Extend;
      MergedAddsUp(n, at, peers, ranges, m - 1);
      MergedAt(n, at, peers, ranges, m - 1);
    }
  }
}
