/** The values of a table: 32-bit two's-complement integers, added and subtracted with wrap-around.
    Sums are computed over unbounded integers and compared through `Wrap`, which is what makes
    "this value is the sum of those deltas" a linear statement. */
module Int32 {

  type Value = x: int | -0x8000_0000 <= x < 0x8000_0000

  function Wrap(x: int): Value {
    (x + 0x8000_0000) % 0x1_0000_0000 - 0x8000_0000
  }

  // The table's add function: v += delta.
  function VAdd(v: Value, delta: Value): Value {
    Wrap(v + delta)
  }

  // The table's subtract function: v -= delta.
  function VSub(v: Value, delta: Value): Value {
    Wrap(v - delta)
  }

  lemma WrapShift(x: int, n: int)
    ensures Wrap(x + n * 0x1_0000_0000) == Wrap(x)
  {}

  lemma WrapQuotient(x: int) returns (n: int)
    ensures Wrap(x) == x + n * 0x1_0000_0000
  {
    n := -((x + 0x8000_0000) / 0x1_0000_0000);
  }

  // Wrapping commutes with addition: the wrapped value of a sum depends only on the wrapped summands.
  lemma AddWraps(x: int, y: int)
    ensures VAdd(Wrap(x), Wrap(y)) == Wrap(x + y)
  {
    hide Wrap;
    var m := WrapQuotient(x);
    var n := WrapQuotient(y);
    WrapShift(x + y, m + n);
  }

  lemma SubWrapped(x: int, y: int)
    ensures VSub(Wrap(x + y), Wrap(x)) == Wrap(y)
  {
    hide Wrap;
    var m := WrapQuotient(x + y);
    var n := WrapQuotient(x);
    WrapShift(y, m - n);
  }

  lemma WrapValue(v: Value)
    ensures Wrap(v) == v
  {}

  // An addition whose left operand is a wrapped sum.
  lemma AddToWrapped(x: int, v: Value)
    ensures VAdd(Wrap(x), v) == Wrap(x + v)
  {
    WrapValue(v);
    AddWraps(x, v);
  }

  // The all-zero value is the identity of a commutative, associative addition ...
  lemma AdditionCommutes(a: Value, b: Value)
    ensures VAdd(a, 0) == a && VAdd(a, b) == VAdd(b, a)
  {
    WrapValue(a);
  }

  lemma AdditionAssociates(a: Value, b: Value, c: Value)
    ensures VAdd(VAdd(a, b), c) == VAdd(a, VAdd(b, c))
  {
    hide Wrap;
    AddToWrapped(a + b, c);
    AddToWrapped(b + c, a);
    assert a + b + c == b + c + a;
  }

  // ... which subtraction undoes, on all inputs.
  lemma SubtractionUndoes(a: Value, b: Value)
    ensures VSub(VAdd(a, b), b) == a && VAdd(VSub(a, b), b) == a
  {
    hide Wrap;
    WrapValue(a);
    WrapValue(b);
    SubWrapped(b, a);
    AddToWrapped(a - b, b);
    assert a - b + b == a && b + a == a + b;
  }

  type Table = map<int, Value>

  // A key that is not stored reads as the all-zero value.
  function Get(m: Table, k: int): Value {
    if k in m then m[k] else 0
  }

  // Insert zero if the key is missing, then add.
  function AddAt(m: Table, k: int, delta: Value): Table {
    m[k := VAdd(Get(m, k), delta)]
  }

  // Add every entry of `d` into `m`.
  function AddAll(m: Table, d: Table): Table {
    map k | k in m.Keys + d.Keys :: VAdd(Get(m, k), Get(d, k))
  }

  // Subtract every entry of `d` from the entry of `m` at the same key; the keys of `m` stay.
  function SubAll(m: Table, d: Table): Table {
    map k | k in m :: VSub(m[k], Get(d, k))
  }

  lemma AddAllGet(m: Table, d: Table, k: int)
    ensures Get(AddAll(m, d), k) == VAdd(Get(m, k), Get(d, k))
  {}

  lemma SubAllGet(m: Table, d: Table, k: int)
    requires d.Keys <= m.Keys
    ensures Get(SubAll(m, d), k) == VSub(Get(m, k), Get(d, k))
  {}
}
