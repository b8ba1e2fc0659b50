/** The compressed sparse row matrix and the loops that slice, shift and cut it. */
module Matrix {
  import opened Slices

  // ---- cutting a range into k parts ----

  // To the nearest integer, halves away from zero.
  function Round(x: real): int {
    if x >= 0.0 then (x + 0.5).Floor else -((0.5 - x).Floor)
  }

  function Width(start: int, end: int, k: int): real
    requires k != 0
  {
    (end - start) as real / k as real
  }

  function Times(d: real, i: int): real {
    d * i as real
  }

  function Cut(start: int, end: int, k: int, i: int): int
    requires k != 0
  {
    Round(Times(Width(start, end, k), i)) + start
  }

  function Cuts(start: int, end: int, k: int): seq<int>
    requires k > 0
  {
    seq(k + 1, i => Cut(start, end, k, i))
  }

  lemma RoundMonotone(x: real, y: real)
    requires x <= y
    ensures Round(x) <= Round(y)
  {}

  lemma RoundStep(x: real, d: real)
    requires 0.0 <= x && 0.0 <= d
    ensures d - 1.0 < (Round(x + d) - Round(x)) as real < d + 1.0
  {}

  lemma Scaled(d: real, i: int)
    requires 0.0 <= d && 0 <= i
    ensures Times(d, 0) == 0.0 && 0.0 <= Times(d, i) && Times(d, i + 1) == Times(d, i) + d
  {}

  lemma WidthTimes(start: int, end: int, k: int)
    requires k > 0 && start <= end
    ensures Width(start, end, k) >= 0.0 && Times(Width(start, end, k), k) == (end - start) as real
  {}

  // Neighbouring cuts never go back, and no block differs from the exact width by a whole column.
  lemma CutStep(start: int, end: int, k: int, i: int)
    requires k > 0 && start <= end && 0 <= i
    ensures Width(start, end, k) - 1.0 < (Cut(start, end, k, i + 1) - Cut(start, end, k, i)) as real < Width(start, end, k) + 1.0
    ensures Cut(start, end, k, i) <= Cut(start, end, k, i + 1)
  {
    hide Round, Width, Times;
    var d := Width(start, end, k);
    WidthTimes(start, end, k);
    Scaled(d, i);
    RoundStep(Times(d, i), d);
    RoundMonotone(Times(d, i), Times(d, i) + d);
  }

  lemma {:induction false} CutMonotone(start: int, end: int, k: int, i: int, j: int)
    requires k > 0 && start <= end && 0 <= i <= j
    ensures Cut(start, end, k, i) <= Cut(start, end, k, j)
    decreases j
  {
    hide Cut;
    if i < j {
      CutMonotone(start, end, k, i, j - 1);
      CutStep(start, end, k, j - 1);
    }
  }

  // The cuts begin at the start, end at the end and are in order.
  lemma CutsCover(start: int, end: int, k: int)
    requires k > 0 && start <= end
    ensures Increasing(Cuts(start, end, k)) && Cuts(start, end, k)[0] == start && Cuts(start, end, k)[k] == end
  {
    WidthTimes(start, end, k);
    Scaled(Width(start, end, k), 0);
    var cuts := Cuts(start, end, k);
    forall i, j | 0 <= i <= j < |cuts| ensures cuts[i] <= cuts[j] {
      hide Cut;
      CutMonotone(start, end, k, i, j);
    }
  }

  // The integer c is the one nearest to i / k of e, and of two equally near the one further from zero.
  predicate Nearest(c: int, e: int, k: int, i: int) {
    && -k <= 2 * (k * c - i * e) <= k
    && (i * e > 0 ==> 2 * (k * c - i * e) != -k)
    && (i * e < 0 ==> 2 * (k * c - i * e) != k)
  }

  lemma RoundNearest(x: real)
    ensures var d := Round(x) as real - x;
            -0.5 <= d <= 0.5 && (x > 0.0 ==> d > -0.5) && (x < 0.0 ==> d < 0.5)
  {}

  lemma ScaledError(k: int, c: int, x: real, e: int)
    requires k > 0 && k as real * x == e as real
    requires var d := c as real - x;
             -0.5 <= d <= 0.5 && (x > 0.0 ==> d > -0.5) && (x < 0.0 ==> d < 0.5)
    ensures -k <= 2 * (k * c - e) <= k && (e > 0 ==> 2 * (k * c - e) != -k) && (e < 0 ==> 2 * (k * c - e) != k)
  {
    var y := k as real * (c as real - x);
    Product(k, c, x);
    Bounded(k as real, c as real - x, y);
    SignOf(k as real, x);
    Doubled(k, k * c - e, y);
  }

  lemma Product(k: int, c: int, x: real)
    ensures (k * c) as real - k as real * x == k as real * (c as real - x)
  {
    assert (k * c) as real == k as real * c as real;
  }

  lemma Doubled(k: int, m: int, y: real)
    requires m as real == y && -(k as real) <= y + y <= k as real
    ensures -k <= 2 * m <= k && (y + y > -(k as real) ==> 2 * m != -k) && (y + y < k as real ==> 2 * m != k)
  {}

  lemma Bounded(r: real, d: real, y: real)
    requires r > 0.0 && -0.5 <= d <= 0.5 && y == r * d
    ensures -r <= y + y <= r && (d > -0.5 ==> y + y > -r) && (d < 0.5 ==> y + y < r)
  {
    assert r * (d + 0.5) == y + 0.5 * r && r * (0.5 - d) == 0.5 * r - y;
  }

  lemma SignOf(r: real, x: real)
    requires r > 0.0
    ensures (r * x > 0.0 ==> x > 0.0) && (r * x < 0.0 ==> x < 0.0)
  {}

  lemma CutExact(start: int, end: int, k: int, i: int)
    requires k > 0
    ensures k as real * Times(Width(start, end, k), i) == (i * (end - start)) as real
  {
    var w := Width(start, end, k);
    assert w * k as real == (end - start) as real;
    assert k as real * (w * i as real) == (w * k as real) * i as real;
    assert (i * (end - start)) as real == (end - start) as real * i as real;
  }

  // Which integer a cut is, in integers alone.
  lemma CutNearest(start: int, end: int, k: int, i: int)
    requires k > 0
    ensures Nearest(Cut(start, end, k, i) - start, end - start, k, i)
  {
    hide Round, Times, Width;
    var x := Times(Width(start, end, k), i);
    CutExact(start, end, k, i);
    RoundNearest(x);
    ScaledError(k, Round(x), x, i * (end - start));
  }

  // No other integer would do.
  lemma NearestUnique(c: int, d: int, e: int, k: int, i: int)
    requires k > 0 && Nearest(c, e, k, i) && Nearest(d, e, k, i)
    ensures c == d
  {
    var x, y := 2 * (k * c - i * e), 2 * (k * d - i * e);
    assert x - y == 2 * (k * (c - d)) && y - x == 2 * (k * (d - c));
    if c > d {
      Apart(k, c - d);
    } else if c < d {
      Apart(k, d - c);
    }
  }

  lemma {:induction false} Apart(k: int, n: int)
    requires k > 0 && n > 0
    ensures k * n >= k
  {
    if n > 1 {
      Apart(k, n - 1);
      assert k * n == k * (n - 1) + k;
    }
  }

  method Linspace(start: int, end: int, k: int) returns (ret: seq<int>)
    requires k != 0
    ensures if k < 0 then ret == [] else ret == Cuts(start, end, k)
    ensures k > 0 && start <= end ==> Increasing(ret) && ret[0] == start && ret[k] == end
    ensures forall i | 0 <= i < |ret| ::
              var twice := 2 * (k * (ret[i] - start) - i * (end - start));
              -k <= twice <= k && (i * (end - start) > 0 ==> twice != -k) && (i * (end - start) < 0 ==> twice != k)
  {
    var itv := Width(start, end, k);
    ret := [];
    var i := 0;
    while i <= k
      invariant 0 <= i == |ret| && i <= if k < 0 then 0 else k + 1
      invariant forall j | 0 <= j < i :: ret[j] == Cut(start, end, k, j)
    {
      ret := ret + [Round(Times(itv, i)) + start];
      i := i + 1;
    }
    forall i | 0 <= i < |ret|
      ensures var twice := 2 * (k * (ret[i] - start) - i * (end - start));
              -k <= twice <= k && (i * (end - start) > 0 ==> twice != -k) && (i * (end - start) < 0 ==> twice != k)
    {
      hide Cut;
      CutNearest(start, end, k, i);
    }
    if k > 0 && start <= end {
      assert ret == Cuts(start, end, k);
      CutsCover(start, end, k);
    }
  }

  // So over the blocks the program cuts, any weighted sum of a row adds up, if a block is never wider than the index type.
  lemma BlocksAddUp(row: seq<Entry>, cols: Seg, k: int, width: nat, w: int -> real)
    requires k > 0 && cols.start <= cols.end && width > 0
    requires Width(cols.start, cols.end, k) + 1.0 <= width as real
    requires forall e | e in row :: cols.In(e.col)
    ensures WeighSlices(row, Cuts(cols.start, cols.end, k), width, w, k) == Weigh(row, w)
  {
    var cuts := Cuts(cols.start, cols.end, k);
    CutsCover(cols.start, cols.end, k);
    forall i: nat | i + 1 < |cuts| ensures cuts[i + 1] - cuts[i] <= width {
      hide Cut, Width;
      CutStep(cols.start, cols.end, k, i);
    }
    WeightsAddUp(row, cuts, width, w);
  }

  // ---- the matrix ----

  // The stored entries lo..hi-1; a matrix without values counts as all ones.
  ghost function EntriesOf(index: seq<nat>, value: seq<real>, hasValue: bool, lo: nat, hi: nat): (row: seq<Entry>)
    requires lo <= hi <= |index| && (hasValue ==> hi <= |value|)
    ensures |row| == hi - lo
  {
    seq(hi - lo, j requires 0 <= j < hi - lo => Entry(index[lo + j], if hasValue then value[lo + j] else 1.0))
  }

  // Writing one entry behind the others.
  lemma EntriesMore(index: seq<nat>, value: seq<real>, hasValue: bool, lo: nat, hi: nat, index': seq<nat>, value': seq<real>)
    requires lo <= hi < |index| == |index'| && (hasValue ==> hi < |value| == |value'|)
    requires index'[..hi] == index[..hi] && (hasValue ==> value'[..hi] == value[..hi])
    ensures EntriesOf(index', value', hasValue, lo, hi + 1)
         == EntriesOf(index, value, hasValue, lo, hi) + [Entry(index'[hi], if hasValue then value'[hi] else 1.0)]
  {}

  lemma EntriesSame(index: seq<nat>, value: seq<real>, hasValue: bool, lo: nat, hi: nat, index': seq<nat>, value': seq<real>, o: nat)
    requires lo <= hi <= o <= |index| && o <= |index'| && (hasValue ==> o <= |value| && o <= |value'|)
    requires index'[..o] == index[..o] && (hasValue ==> value'[..o] == value[..o])
    ensures EntriesOf(index', value', hasValue, lo, hi) == EntriesOf(index, value, hasValue, lo, hi)
  {}

  lemma EntriesAt(index: seq<nat>, value: seq<real>, hasValue: bool, lo: nat, hi: nat, j: nat)
    requires lo <= hi <= |index| && (hasValue ==> hi <= |value|) && j < hi - lo
    ensures EntriesOf(index, value, hasValue, lo, hi)[j] == Entry(index[lo + j], if hasValue then value[lo + j] else 1.0)
  {}

  lemma KeepNone(cols: Seg, width: nat)
    requires width > 0
    ensures Keep([], cols, width) == []
  {}

  lemma KeepMore(row: seq<Entry>, n: nat, cols: Seg, width: nat)
    requires n < |row| && width > 0
    ensures Keep(row[..n + 1], cols, width)
         == Keep(row[..n], cols, width)
            + if cols.In(row[n].col) then [Entry(Narrow(row[n].col - cols.start, width), row[n].val)] else []
  {
    assert row[..n + 1][..n] == row[..n];
  }

  class RSpMat {
    var row: Seg
    var col: Seg
    var nnz: nat
    var offset: array<nat>
    var index: array<nat>
    var value: array?<real>

    function Rows(): int
      reads this
    {
      row.end - row.start
    }

    ghost predicate Valid()
      reads this, offset, index, value
    {
      && offset != index
      && 0 <= Rows() < offset.Length
      && nnz <= index.Length && (value != null ==> nnz <= value.Length)
      && (Rows() > 0 ==> offset[0] == 0 && offset[Rows()] <= nnz)
      && (forall i, j | 0 <= i <= j <= Rows() && Rows() > 0 :: offset[i] <= offset[j])
    }

    ghost function Stored(): seq<real>
      reads this, value
    {
      if value == null then [] else value[..]
    }

    ghost function Entries(lo: nat, hi: nat): seq<Entry>
      requires lo <= hi <= index.Length && (value != null ==> hi <= value.Length)
      reads this, index, value
    {
      EntriesOf(index[..], Stored(), value != null, lo, hi)
    }

    // Row i as its entries in stored order.
    ghost function Row(i: nat): seq<Entry>
      requires Valid() && i < Rows()
      reads this, offset, index, value
    {
      Entries(offset[i], offset[i + 1])
    }

    constructor ()
      ensures Valid() && Rows() == 0
    {
      row, col, nnz := Seg(0, 0), Seg(0, 0), 0;
      offset := new nat[1];
      index := new nat[1];
      value := null;
    }

    // Fresh arrays with room to spare. Only the first offsets are zeroed, one per row; nothing else is set.
    method Init(row: Seg, col: Seg, nnz: nat, hasValue: bool)
      requires 0 <= row.end - row.start
      modifies this
      ensures this.row == row && this.col == col && this.nnz == nnz
      ensures fresh(offset) && fresh(index) && offset != index && (value != null ==> fresh(value))
      ensures offset.Length == Rows() + 5 && index.Length == nnz + 5
      ensures if hasValue then value != null && value.Length == nnz + 5 else value == null
      ensures forall i | 0 <= i < Rows() :: offset[i] == 0
    {
      this.row, this.col, this.nnz := row, col, nnz;
      var n := row.end - row.start;
      var zeroed := new nat[n + 5];
      var i := 0;
      while i < n
        invariant this.row == row && this.col == col && this.nnz == nnz
        invariant 0 <= i <= n && forall j | 0 <= j < i :: zeroed[j] == 0
      {
        zeroed[i] := 0;
        i := i + 1;
      }
      offset := zeroed;
      index := new nat[nnz + 5];
      value := null;
      if hasValue {
        value := new real[nnz + 5];
      }
    }

    // Offsets read from a file count from the file's first entry; the arrays start at the first row read.
    method Rebase()
      requires 0 <= Rows() < offset.Length
      requires forall i, j | 0 <= i <= j <= Rows() :: offset[i] <= offset[j]
      modifies offset
      ensures offset[0] == 0 && forall i | 0 <= i <= Rows() :: offset[i] == old(offset[i]) - old(offset[0])
      ensures forall i | Rows() < i < offset.Length :: offset[i] == old(offset[i])
    {
      var start := offset[0];
      if start != 0 {
        var i := 0;
        while i <= Rows()
          invariant 0 <= i <= Rows() + 1
          invariant forall j | 0 <= j <= Rows() :: offset[j] == if j < i then old(offset[j]) - start else old(offset[j])
          invariant forall j | Rows() < j < offset.Length :: offset[j] == old(offset[j])
        {
          offset[i] := offset[i] - start;
          i := i + 1;
        }
      }
    }

    // Store one entry behind the ones from `lo` on.
    method Put(ghost lo: nat, at: nat, column: nat, v: real)
      requires lo <= at < index.Length && (value != null ==> at < value.Length)
      modifies index, if value == null then {} else {value}
      ensures Entries(lo, at + 1) == old(Entries(lo, at)) + [Entry(column, if value == null then 1.0 else v)]
      ensures index[..at] == old(index[..at]) && (value != null ==> value[..at] == old(value[..at]))
    {
      hide EntriesOf;
      ghost var was, wasValue := index[..], Stored();
      index[at] := column;
      if value != null {
        value[at] := v;
      }
      EntriesMore(was, wasValue, value != null, lo, at, index[..], Stored());
    }

    // One turn of the inner loop.
    method SliceEntry(j: nat, cols: Seg, width: nat, res: RSpMat, ghost o: nat, at: nat) returns (end: nat)
      requires j < index.Length && (value != null ==> j < value.Length) && width > 0
      requires res.index != index && (res.value == null <==> value == null) && (value != null ==> res.value != value)
      requires o <= at < res.index.Length && (value != null ==> at < res.value.Length)
      modifies res.index, if value == null then {} else {res.value}
      ensures var e := Entry(index[j], if value == null then 1.0 else value[j]);
              var kept := if cols.In(e.col) then [Entry(Narrow(e.col - cols.start, width), e.val)] else [];
              end == at + |kept| && res.Entries(o, end) == old(res.Entries(o, at)) + kept
      ensures res.index[..o] == old(res.index[..o]) && (value != null ==> res.value[..o] == old(res.value[..o]))
    {
      hide EntriesOf, Narrow;
      end := at;
      var c := index[j];
      if cols.In(c) {
        ghost var was, wasValue := res.index[..at], if value != null then res.value[..at] else [];
        res.Put(o, at, Narrow(c - cols.start, width), if value != null then value[j] else 1.0);
        assert res.index[..o] == res.index[..at][..o] == was[..o];
        assert value != null ==> res.value[..o] == res.value[..at][..o] == wasValue[..o];
        end := end + 1;
      }
    }

    // The inner loop: the entries of row i in the columns, appended to the slice's arrays from position o on.
    method SliceRow(i: nat, cols: Seg, width: nat, res: RSpMat, o: nat) returns (end: nat)
      requires Valid() && i < Rows() && width > 0
      requires res.index != index && res.index != offset && (res.value == null <==> value == null)
      requires value != null ==> res.value != value && nnz <= res.value.Length
      requires o <= offset[i] && nnz <= res.index.Length
      modifies res.index, if value == null then {} else {res.value}
      ensures o <= end && end - o <= offset[i + 1] - offset[i]
      ensures res.index[..o] == old(res.index[..o])
      ensures value != null ==> res.value[..o] == old(res.value[..o])
      ensures res.Entries(o, end) == Keep(Row(i), cols, width)
    {
      hide Keep, EntriesOf, Narrow;
      end := o;
      var j := offset[i];
      ghost var row := Row(i);
      KeepNone(cols, width);
      assert row[..0] == [];
      while j < offset[i + 1]
        invariant offset[i] <= j <= offset[i + 1] && o <= end && end - o <= j - offset[i]
        invariant res.index[..o] == old(res.index[..o])
        invariant value != null ==> res.value[..o] == old(res.value[..o])
        invariant res.Entries(o, end) == Keep(row[..j - offset[i]], cols, width)
      {
        EntriesAt(index[..], Stored(), value != null, offset[i], offset[i + 1], j - offset[i]);
        KeepMore(row, j - offset[i], cols, width);
        end := SliceEntry(j, cols, width, res, o, end);
        j := j + 1;
      }
      assert row[..offset[i + 1] - offset[i]] == row;
    }

    // Row r has been written to the slice.
    ghost predicate RowSliced(r: nat, cols: Seg, width: nat, res: RSpMat)
      requires Valid() && r < Rows() && width > 0 && r + 1 < res.offset.Length
      reads this, offset, index, value, res, res.offset, res.index, res.value
    {
      && res.offset[r] <= res.offset[r + 1] <= res.index.Length
      && (res.value != null ==> res.offset[r + 1] <= res.value.Length)
      && res.Entries(res.offset[r], res.offset[r + 1]) == Keep(Row(r), cols, width)
    }

    // The slice's own arrays have room, and its first i rows are written.
    ghost predicate Sliced(i: nat, cols: Seg, width: nat, res: RSpMat)
      requires Valid() && width > 0
      reads this, offset, index, value, res, res.offset, res.index, res.value
    {
      && res != this && res.row == row && res.col == cols && res.nnz == nnz && (res.value == null <==> value == null)
      && res.offset != res.index && {res.offset, res.index} !! {offset, index} && (value != null ==> res.value != value)
      && res.offset.Length == Rows() + 5 && res.index.Length == nnz + 5 && (res.value != null ==> res.value.Length == nnz + 5)
      && i <= Rows() && (Rows() > 0 ==> res.offset[0] == 0 && res.offset[i] <= offset[i])
      && (forall a, b | 0 <= a <= b <= i && Rows() > 0 :: res.offset[a] <= res.offset[b])
      && (forall r | 0 <= r < i :: RowSliced(r, cols, width, res))
    }

    method SliceNext(i: nat, cols: Seg, width: nat, res: RSpMat)
      requires Valid() && width > 0 && Sliced(i, cols, width, res) && i < Rows()
      modifies res.offset, res.index, if value == null then {} else {res.value}
      ensures Valid() && Sliced(i + 1, cols, width, res)
    {
      hide Keep, EntriesOf;
      var o := res.offset[i];
      label Before:
      var end := SliceRow(i, cols, width, res, o);
      label After:
      res.offset[i + 1] := end;
      assert Valid();
      assert RowSliced(i, cols, width, res);
      forall r | 0 <= r < i ensures RowSliced(r, cols, width, res) {
        assert old@Before(RowSliced(r, cols, width, res));
        assert res.offset[r + 1] <= res.offset[i];
        EntriesSame(old@Before(res.index[..]), old@Before(res.Stored()), value != null,
                    res.offset[r], res.offset[r + 1], res.index[..], res.Stored(), o);
      }
    }

    // Aborts unless the columns asked for are the matrix's own; otherwise every row of the slice is the selection of the row.
    method VSlice(cols: Seg, width: nat, res: RSpMat) returns (ok: bool)
      requires Valid() && res != this && width > 0
      modifies res
      ensures ok <==> col.start <= cols.start && cols.end <= col.end
      ensures !ok ==> unchanged(res)
      ensures ok ==> res.Valid() && res.row == row && res.col == cols && res.nnz == nnz && (res.value == null <==> value == null)
      ensures ok ==> forall i | 0 <= i < Rows() :: res.Row(i) == Keep(Row(i), cols, width)
    {
      hide Keep, EntriesOf, RowSliced;
      ok := col.SupsetEq(cols);
      if !ok {
        return;
      }
      res.Init(row, cols, nnz, value != null);
      var i := 0;
      while i < Rows()
        invariant unchanged(this) && unchanged(offset) && unchanged(index) && (value != null ==> unchanged(value))
        invariant fresh(res.offset) && fresh(res.index) && (res.value != null ==> fresh(res.value))
        invariant 0 <= i <= Rows() && Sliced(i, cols, width, res)
        decreases Rows() - i
      {
        SliceNext(i, cols, width, res);
        i := i + 1;
      }
      RowsSliced(cols, width, res);
    }

    lemma RowsSliced(cols: Seg, width: nat, res: RSpMat)
      requires Valid() && width > 0 && Sliced(Rows(), cols, width, res)
      ensures res.Valid() && forall i | 0 <= i < Rows() :: res.Row(i) == Keep(Row(i), cols, width)
    {
      hide Keep, EntriesOf;
      forall r | 0 <= r < Rows() ensures res.Row(r) == Keep(Row(r), cols, width) {
        assert RowSliced(r, cols, width, res);
      }
    }
  }
}
