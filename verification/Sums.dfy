/** Sums of logged deltas: over a stretch of one origin's log, and over the stretches a range map names. */
module Sums {
  import opened Int32
  import opened Messages

  // What log entry `s` adds to key `k`.
  function Term(log: seq<Inc>, s: int, k: int): int {
    if 0 <= s < |log| && log[s].key == k then log[s].delta else 0
  }

  // The sum of the deltas to key `k` at sequence numbers lo..hi-1.
  function Part(log: seq<Inc>, lo: int, hi: int, k: int): int
    decreases hi - lo
  {
    if hi <= lo then 0 else Part(log, lo, hi - 1, k) + Term(log, hi - 1, k)
  }

  // The sum of the deltas to key `k` named by `ranges`, over the first `n` origins.
  function Named(logs: seq<seq<Inc>>, ranges: map<int, Range>, n: nat, k: int): int
    requires n <= |logs|
  {
    if n == 0 then 0
    else Named(logs, ranges, n - 1, k) + Part(logs[n - 1], Lo(ranges, n - 1), Hi(ranges, n - 1), k)
  }

  lemma {:induction false} PartSplit(log: seq<Inc>, lo: int, mid: int, hi: int, k: int)
    requires lo <= mid <= hi
    ensures Part(log, lo, hi, k) == Part(log, lo, mid, k) + Part(log, mid, hi, k)
    decreases hi - mid
  {
    if mid < hi {
      PartSplit(log, lo, mid, hi - 1, k);
    }
  }

  lemma {:induction false} PartPrefix(log: seq<Inc>, longer: seq<Inc>, lo: int, hi: int, k: int)
    requires log <= longer && hi <= |log|
    ensures Part(log, lo, hi, k) == Part(longer, lo, hi, k)
    decreases hi - lo
  {
    if lo < hi {
      PartPrefix(log, longer, lo, hi - 1, k);
    }
  }

  // Named depends on each origin's stretch only through its sum.
  lemma {:induction false} NamedSame(logs: seq<seq<Inc>>, a: map<int, Range>, logs': seq<seq<Inc>>, b: map<int, Range>, n: nat, k: int)
    requires n <= |logs| && n <= |logs'|
    requires forall o | 0 <= o < n :: Part(logs[o], Lo(a, o), Hi(a, o), k) == Part(logs'[o], Lo(b, o), Hi(b, o), k)
    ensures Named(logs, a, n, k) == Named(logs', b, n, k)
  {
    if n > 0 {
      NamedSame(logs, a, logs', b, n - 1, k);
    }
  }

  lemma {:induction false} NamedAdds(logs: seq<seq<Inc>>, a: map<int, Range>, b: map<int, Range>, c: map<int, Range>, n: nat, k: int)
    requires n <= |logs|
    requires forall o | 0 <= o < n ::
               Part(logs[o], Lo(c, o), Hi(c, o), k) == Part(logs[o], Lo(a, o), Hi(a, o), k) + Part(logs[o], Lo(b, o), Hi(b, o), k)
    ensures Named(logs, c, n, k) == Named(logs, a, n, k) + Named(logs, b, n, k)
  {
    if n > 0 {
      NamedAdds(logs, a, b, c, n - 1, k);
    }
  }

  lemma {:induction false} NamedNothing(logs: seq<seq<Inc>>, a: map<int, Range>, n: nat, k: int)
    requires n <= |logs|
    requires forall o | 0 <= o < n :: Hi(a, o) <= Lo(a, o)
    ensures Named(logs, a, n, k) == 0
  {
    if n > 0 {
      NamedNothing(logs, a, n - 1, k);
    }
  }

  lemma {:induction false} NamedOne(logs: seq<seq<Inc>>, i: int, r: Range, n: nat, k: int)
    requires n <= |logs| && 0 <= i < |logs|
    ensures Named(logs, map[i := r], n, k) == if i < n then Part(logs[i], r.st, r.end + 1, k) else 0
  {
    if n > 0 {
      NamedOne(logs, i, r, n - 1, k);
    }
  }
}

/** When a key/value table is exactly what a range map names: its values are the sums, and it has every key. */
module Content {
  import opened Int32
  import opened Messages
  import opened Sums

  ghost predicate HoldsAt(m: Table, logs: seq<seq<Inc>>, ranges: map<int, Range>, k: int) {
    Get(m, k) == Wrap(Named(logs, ranges, |logs|, k))
  }

  ghost predicate Covers(m: Table, logs: seq<seq<Inc>>, ranges: map<int, Range>) {
    forall o, q | 0 <= o < |logs| && 0 <= q < |logs[o]| && Lo(ranges, o) <= q < Hi(ranges, o) :: logs[o][q].key in m
  }

  ghost predicate Holds(m: Table, logs: seq<seq<Inc>>, ranges: map<int, Range>) {
    (forall k :: HoldsAt(m, logs, ranges, k)) && Covers(m, logs, ranges)
  }

  ghost predicate Extends(logs: seq<seq<Inc>>, logs': seq<seq<Inc>>) {
    |logs| == |logs'| && forall o | 0 <= o < |logs| :: logs[o] <= logs'[o]
  }

  // The ranges stay inside the logs.
  ghost predicate Inside(ranges: map<int, Range>, logs: seq<seq<Inc>>) {
    forall o | 0 <= o < |logs| :: 0 <= Lo(ranges, o) && Hi(ranges, o) <= |logs[o]|
  }

  lemma HoldsGrows(m: Table, logs: seq<seq<Inc>>, logs': seq<seq<Inc>>, ranges: map<int, Range>)
    requires Holds(m, logs, ranges) && Extends(logs, logs') && Inside(ranges, logs)
    ensures Holds(m, logs', ranges)
  {
    forall k ensures HoldsAt(m, logs', ranges, k) {
      assert HoldsAt(m, logs, ranges, k);
      forall o | 0 <= o < |logs|
        ensures Part(logs[o], Lo(ranges, o), Hi(ranges, o), k) == Part(logs'[o], Lo(ranges, o), Hi(ranges, o), k)
      {
        PartPrefix(logs[o], logs'[o], Lo(ranges, o), Hi(ranges, o), k);
      }
      NamedSame(logs, ranges, logs', ranges, |logs|, k);
    }
  }

  // At origin o, the stretch of `c` is the stretch of `a` followed by the stretch of `b`.
  ghost predicate JoinedAt(a: map<int, Range>, b: map<int, Range>, c: map<int, Range>, o: int) {
    || (Hi(b, o) <= Lo(b, o) && Lo(c, o) == Lo(a, o) && Hi(c, o) == Hi(a, o))
    || (Hi(a, o) <= Lo(a, o) && Lo(c, o) == Lo(b, o) && Hi(c, o) == Hi(b, o))
    || (Lo(a, o) <= Hi(a, o) == Lo(b, o) <= Hi(b, o) && Lo(c, o) == Lo(a, o) && Hi(c, o) == Hi(b, o))
  }

  ghost predicate Joined(a: map<int, Range>, b: map<int, Range>, c: map<int, Range>, n: nat) {
    forall o | 0 <= o < n :: JoinedAt(a, b, c, o)
  }

  lemma JoinedParts(log: seq<Inc>, a: map<int, Range>, b: map<int, Range>, c: map<int, Range>, o: int, k: int)
    requires JoinedAt(a, b, c, o)
    ensures Part(log, Lo(c, o), Hi(c, o), k) == Part(log, Lo(a, o), Hi(a, o), k) + Part(log, Lo(b, o), Hi(b, o), k)
  {
    if Lo(a, o) <= Hi(a, o) == Lo(b, o) <= Hi(b, o) && Lo(c, o) == Lo(a, o) && Hi(c, o) == Hi(b, o) {
      PartSplit(log, Lo(a, o), Hi(a, o), Hi(b, o), k);
    }
  }

  lemma JoinedSums(logs: seq<seq<Inc>>, a: map<int, Range>, b: map<int, Range>, c: map<int, Range>, k: int)
    requires Joined(a, b, c, |logs|)
    ensures Named(logs, c, |logs|, k) == Named(logs, a, |logs|, k) + Named(logs, b, |logs|, k)
  {
    forall o | 0 <= o < |logs|
      ensures Part(logs[o], Lo(c, o), Hi(c, o), k) == Part(logs[o], Lo(a, o), Hi(a, o), k) + Part(logs[o], Lo(b, o), Hi(b, o), k)
    {
      JoinedParts(logs[o], a, b, c, o, k);
    }
    NamedAdds(logs, a, b, c, |logs|, k);
  }

  // Adding two tables adds what they hold.
  lemma HoldsAddAll(logs: seq<seq<Inc>>, m: Table, a: map<int, Range>, d: Table, b: map<int, Range>, c: map<int, Range>)
    requires Holds(m, logs, a) && Holds(d, logs, b) && Joined(a, b, c, |logs|)
    ensures Holds(AddAll(m, d), logs, c)
  {
    forall k ensures HoldsAt(AddAll(m, d), logs, c, k) {
      assert HoldsAt(m, logs, a, k) && HoldsAt(d, logs, b, k);
      AddAllGet(m, d, k);
      JoinedSums(logs, a, b, c, k);
      AddWraps(Named(logs, a, |logs|, k), Named(logs, b, |logs|, k));
    }
    forall o, q | 0 <= o < |logs| && 0 <= q < |logs[o]| && Lo(c, o) <= q < Hi(c, o)
      ensures logs[o][q].key in AddAll(m, d)
    {
      assert JoinedAt(a, b, c, o);
    }
  }

  lemma HoldsAtSub(logs: seq<seq<Inc>>, m: Table, c: map<int, Range>, d: Table, a: map<int, Range>, b: map<int, Range>, k: int)
    requires HoldsAt(m, logs, c, k) && HoldsAt(d, logs, a, k) && Joined(a, b, c, |logs|) && d.Keys <= m.Keys
    ensures HoldsAt(SubAll(m, d), logs, b, k)
  {
    hide Wrap, VSub, SubAll, Joined, Named;
    var x, y := Named(logs, a, |logs|, k), Named(logs, b, |logs|, k);
    calc {
      Get(SubAll(m, d), k);
      { SubAllGet(m, d, k); }
      VSub(Get(m, k), Get(d, k));
      { JoinedSums(logs, a, b, c, k); }
      VSub(Wrap(x + y), Wrap(x));
      { SubWrapped(x, y); }
      Wrap(y);
    }
  }

  // Subtracting what one part of the ranges holds leaves what the other part holds.
  lemma HoldsSubAll(logs: seq<seq<Inc>>, m: Table, c: map<int, Range>, d: Table, a: map<int, Range>, b: map<int, Range>)
    requires Holds(m, logs, c) && Holds(d, logs, a) && Joined(a, b, c, |logs|) && d.Keys <= m.Keys
    ensures Holds(SubAll(m, d), logs, b)
  {
    forall k ensures HoldsAt(SubAll(m, d), logs, b, k) {
      assert HoldsAt(m, logs, c, k) && HoldsAt(d, logs, a, k);
      HoldsAtSub(logs, m, c, d, a, b, k);
    }
    forall o, q | 0 <= o < |logs| && 0 <= q < |logs[o]| && Lo(b, o) <= q < Hi(b, o)
      ensures logs[o][q].key in SubAll(m, d)
    {
      assert JoinedAt(a, b, c, o);
    }
  }

  // Logging one more increment of origin i, whose stretch runs to the end of its log.
  lemma HoldsLog(logs: seq<seq<Inc>>, i: nat, inc: Inc, m: Table, a: map<int, Range>, c: map<int, Range>)
    requires i < |logs| && Holds(m, logs, a) && Inside(a, logs)
    requires Lo(a, i) <= Hi(a, i) == |logs[i]| && c == a[i := Range(Lo(a, i), |logs[i]|)]
    ensures Holds(AddAt(m, inc.key, inc.delta), logs[i := logs[i] + [inc]], c)
  {
    var logs' := logs[i := logs[i] + [inc]];
    var one := map[i := Range(|logs[i]|, |logs[i]|)];
    HoldsGrows(m, logs, logs', a);
    var m' := AddAt(m, inc.key, inc.delta);
    forall k ensures HoldsAt(m', logs', c, k) {
      assert HoldsAt(m, logs', a, k);
      assert Joined(a, one, c, |logs'|);
      JoinedSums(logs', a, one, c, k);
      NamedOne(logs', i, Range(|logs[i]|, |logs[i]|), |logs'|, k);
      assert Part(logs'[i], |logs[i]|, |logs[i]| + 1, k) == Term(logs'[i], |logs[i]|, k);
      AddToWrapped(Named(logs', a, |logs'|, k), inc.delta);
    }
    forall o, q | 0 <= o < |logs'| && 0 <= q < |logs'[o]| && Lo(c, o) <= q < Hi(c, o)
      ensures logs'[o][q].key in m'
    {
      if o == i && q == |logs[i]| {
        assert logs'[o][q] == inc;
      } else {
        assert Lo(a, o) <= q < Hi(a, o);
      }
    }
  }

  // Two range maps with the same stretches name the same thing.
  lemma HoldsSame(logs: seq<seq<Inc>>, m: Table, a: map<int, Range>, b: map<int, Range>)
    requires Holds(m, logs, a)
    requires forall o | 0 <= o < |logs| :: (Lo(a, o) == Lo(b, o) && Hi(a, o) == Hi(b, o)) || (Hi(a, o) <= Lo(a, o) && Hi(b, o) <= Lo(b, o))
    ensures Holds(m, logs, b)
  {
    forall k ensures HoldsAt(m, logs, b, k) {
      assert HoldsAt(m, logs, a, k);
      NamedSame(logs, a, logs, b, |logs|, k);
    }
  }

  lemma HoldsNothing(logs: seq<seq<Inc>>, a: map<int, Range>)
    requires forall o | 0 <= o < |logs| :: Hi(a, o) <= Lo(a, o)
    ensures Holds(map[], logs, a)
  {
    forall k ensures HoldsAt(map[], logs, a, k) {
      NamedNothing(logs, a, |logs|, k);
    }
  }
}
