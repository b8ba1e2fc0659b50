/** What slicing a block of columns out of a sparse matrix means for one row, and why cutting at the right places loses nothing. */
module Slices {

  // Columns start..end-1.
  datatype Seg = Seg(start: int, end: int) {
    predicate In(v: int) {
      start <= v < end
    }

    predicate SupsetEq(v: Seg) {
      start <= v.start && v.end <= end
    }
  }

  datatype Entry = Entry(col: int, val: real)

  // Conversion to an unsigned index type of `width` values.
  function Narrow(x: int, width: nat): (r: nat)
    requires width > 0
    ensures r < width
    ensures 0 <= x < width ==> r == x
  {
    x % width
  }

  // The entries of a row that lie in the columns, in order, with columns counted from the first one and stored in an index
  // type of `width` values.
  function Keep(row: seq<Entry>, cols: Seg, width: nat): seq<Entry>
    requires width > 0
  {
    if row == [] then []
    else
      var rest, e := Keep(row[..|row| - 1], cols, width), row[|row| - 1];
      if cols.In(e.col) then rest + [Entry(Narrow(e.col - cols.start, width), e.val)] else rest
  }

  // The positions in the row of the entries kept.
  function Positions(row: seq<Entry>, cols: Seg): (at: seq<nat>)
    ensures forall m | 0 <= m < |at| :: at[m] < |row| && cols.In(row[at[m]].col)
    ensures forall m, n | 0 <= m < n < |at| :: at[m] < at[n]
    ensures forall j | 0 <= j < |row| && cols.In(row[j].col) :: j in at
  {
    if row == [] then []
    else
      var rest, last := Positions(row[..|row| - 1], cols), |row| - 1;
      assert forall j | 0 <= j < last :: row[..last][j] == row[j];
      if cols.In(row[last].col) then rest + [last] else rest
  }

  // A slice is an order-preserving selection of exactly the entries in the columns, each shifted to the slice's first column.
  lemma {:induction false} KeepSelects(row: seq<Entry>, cols: Seg, width: nat)
    requires cols.end - cols.start <= width && width > 0
    ensures var at := Positions(row, cols);
            && |Keep(row, cols, width)| == |at|
            && forall m | 0 <= m < |at| ::
                 Keep(row, cols, width)[m] == Entry(row[at[m]].col - cols.start, row[at[m]].val)
  {
    hide Narrow;
    if row != [] {
      var most := row[..|row| - 1];
      KeepSelects(most, cols, width);
      assert forall j | 0 <= j < |most| :: most[j] == row[j];
    }
  }

  // Whatever the width: as many entries, in the same order and with the same values, and each column is the right one reduced
  // to the width.
  lemma {:induction false} KeepWraps(row: seq<Entry>, cols: Seg, width: nat)
    requires width > 0
    ensures var at := Positions(row, cols);
            && |Keep(row, cols, width)| == |at|
            && forall m | 0 <= m < |at| ::
                 Keep(row, cols, width)[m] == Entry((row[at[m]].col - cols.start) % width, row[at[m]].val)
  {
    if row != [] {
      var most := row[..|row| - 1];
      KeepWraps(most, cols, width);
      assert forall j | 0 <= j < |most| :: most[j] == row[j];
    }
  }

  // ---- cutting the columns into blocks ----

  ghost predicate Increasing(cuts: seq<int>) {
    forall i, j | 0 <= i <= j < |cuts| :: cuts[i] <= cuts[j]
  }

  function Block(cuts: seq<int>, i: nat): Seg
    requires i + 1 < |cuts|
  {
    Seg(cuts[i], cuts[i + 1])
  }

  // Every column between the first and the last cut lies in exactly one block.
  lemma {:induction false} OneBlock(cuts: seq<int>, c: int) returns (i: nat)
    requires |cuts| >= 2 && Increasing(cuts) && cuts[0] <= c < cuts[|cuts| - 1]
    ensures i + 1 < |cuts| && Block(cuts, i).In(c)
    ensures forall j: nat | j + 1 < |cuts| && Block(cuts, j).In(c) :: j == i
    decreases |cuts|
  {
    if cuts[|cuts| - 2] <= c {
      i := |cuts| - 2;
    } else {
      i := OneBlock(cuts[..|cuts| - 1], c);
    }
  }

  // The sum over a row of each value times the weight of its column.
  ghost function Weigh(row: seq<Entry>, w: int -> real): real {
    if row == [] then 0.0
    else Weigh(row[..|row| - 1], w) + w(row[|row| - 1].col) * row[|row| - 1].val
  }

  // The same, over the entries in some columns only.
  ghost function WeighIn(row: seq<Entry>, cols: Seg, w: int -> real): real {
    if row == [] then 0.0
    else
      WeighIn(row[..|row| - 1], cols, w)
      + if cols.In(row[|row| - 1].col) then w(row[|row| - 1].col) * row[|row| - 1].val else 0.0
  }

  // What the slices over the first n blocks weigh, each under the weights of its own columns.
  ghost function WeighSlices(row: seq<Entry>, cuts: seq<int>, width: nat, w: int -> real, n: nat): real
    requires width > 0 && n < |cuts|
  {
    if n == 0 then 0.0
    else
      WeighSlices(row, cuts, width, w, n - 1)
      + Weigh(Keep(row, Block(cuts, n - 1), width), c => w(c + cuts[n - 1]))
  }

  lemma {:induction false} WeighKeep(row: seq<Entry>, cols: Seg, width: nat, w: int -> real)
    requires cols.end - cols.start <= width && width > 0
    ensures Weigh(Keep(row, cols, width), c => w(c + cols.start)) == WeighIn(row, cols, w)
  {
    hide Narrow;
    if row != [] {
      var most, e := row[..|row| - 1], row[|row| - 1];
      WeighKeep(most, cols, width, w);
      if cols.In(e.col) {
        var kept := Keep(row, cols, width);
        assert kept[..|kept| - 1] == Keep(most, cols, width);
      }
    }
  }

  lemma {:induction false} WeighSplits(row: seq<Entry>, lo: int, mid: int, hi: int, w: int -> real)
    requires lo <= mid <= hi
    ensures WeighIn(row, Seg(lo, hi), w) == WeighIn(row, Seg(lo, mid), w) + WeighIn(row, Seg(mid, hi), w)
  {
    if row != [] {
      WeighSplits(row[..|row| - 1], lo, mid, hi, w);
    }
  }

  lemma {:induction false} WeighAll(row: seq<Entry>, cols: Seg, w: int -> real)
    ensures (forall e | e in row :: cols.In(e.col)) ==> WeighIn(row, cols, w) == Weigh(row, w)
    ensures (forall e | e in row :: !cols.In(e.col)) ==> WeighIn(row, cols, w) == 0.0
  {
    if row != [] {
      var most := row[..|row| - 1];
      assert forall e | e in most :: e in row;
      assert row[|row| - 1] in row;
      WeighAll(most, cols, w);
    }
  }

  lemma {:induction false} SlicesWeigh(row: seq<Entry>, cuts: seq<int>, width: nat, w: int -> real, n: nat)
    requires width > 0 && n < |cuts| && Increasing(cuts)
    requires forall i: nat | i + 1 < |cuts| :: cuts[i + 1] - cuts[i] <= width
    ensures WeighSlices(row, cuts, width, w, n) == WeighIn(row, Seg(cuts[0], cuts[n]), w)
  {
    if n == 0 {
      WeighAll(row, Seg(cuts[0], cuts[0]), w);
    } else {
      SlicesWeigh(row, cuts, width, w, n - 1);
      WeighKeep(row, Block(cuts, n - 1), width, w);
      WeighSplits(row, cuts[0], cuts[n - 1], cuts[n], w);
    }
  }

  // Conservation: any weighted sum over a row is the sum of the same over its slices.
  lemma WeightsAddUp(row: seq<Entry>, cuts: seq<int>, width: nat, w: int -> real)
    requires width > 0 && |cuts| >= 1 && Increasing(cuts)
    requires forall i: nat | i + 1 < |cuts| :: cuts[i + 1] - cuts[i] <= width
    requires forall e | e in row :: cuts[0] <= e.col < cuts[|cuts| - 1]
    ensures WeighSlices(row, cuts, width, w, |cuts| - 1) == Weigh(row, w)
  {
    SlicesWeigh(row, cuts, width, w, |cuts| - 1);
    WeighAll(row, Seg(cuts[0], cuts[|cuts| - 1]), w);
  }

  // A slice counts columns from its own start but keeps the global column range, so slicing it again is right, on every
  // row, exactly when that start is zero or nothing is asked for.
  lemma SliceAgain(outer: Seg, inner: Seg, width: nat)
    requires outer.SupsetEq(inner) && 0 <= outer.start <= outer.end && outer.end - outer.start <= width && width > 0
    ensures (forall row: seq<Entry> :: Keep(Keep(row, outer, width), inner, width) == Keep(row, inner, width))
            <==> outer.start == 0 || inner.start >= inner.end
  {
    if inner.start >= inner.end {
      forall row: seq<Entry> ensures Keep(Keep(row, outer, width), inner, width) == Keep(row, inner, width) {
        KeepNothing(Keep(row, outer, width), inner, width);
        KeepNothing(row, inner, width);
      }
    } else if outer.start == 0 {
      forall row: seq<Entry> ensures Keep(Keep(row, outer, width), inner, width) == Keep(row, inner, width) {
        KeepTwice(row, outer, inner, width);
      }
    } else {
      var row := [Entry(inner.start, 1.0)];
      KeepOne(row[0], outer, width);
      KeepOne(row[0], inner, width);
      KeepOne(Entry(inner.start - outer.start, 1.0), inner, width);
      assert Keep(Keep(row, outer, width), inner, width) != Keep(row, inner, width);
    }
  }

  lemma KeepOne(e: Entry, cols: Seg, width: nat)
    requires width > 0
    ensures Keep([e], cols, width) == if cols.In(e.col) then [Entry(Narrow(e.col - cols.start, width), e.val)] else []
  {
    assert [e][..0] == [];
  }

  lemma {:induction false} KeepNothing(row: seq<Entry>, cols: Seg, width: nat)
    requires cols.start >= cols.end && width > 0
    ensures Keep(row, cols, width) == []
  {
    if row != [] {
      KeepNothing(row[..|row| - 1], cols, width);
    }
  }

  lemma {:induction false} KeepTwice(row: seq<Entry>, outer: Seg, inner: Seg, width: nat)
    requires outer.SupsetEq(inner) && outer.start == 0 && outer.end <= width && width > 0
    ensures Keep(Keep(row, outer, width), inner, width) == Keep(row, inner, width)
  {
    hide Narrow;
    if row != [] {
      KeepTwice(row[..|row| - 1], outer, inner, width);
      if outer.In(row[|row| - 1].col) {
        var kept := Keep(row, outer, width);
        assert kept[..|kept| - 1] == Keep(row[..|row| - 1], outer, width);
      }
    }
  }
}
