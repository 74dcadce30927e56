/** Dense tensors as nested sequences, and the row-major flattening of a matrix. */
module Tensors {

  type Matrix = seq<seq<real>>
  type Tensor3 = seq<seq<seq<real>>>

  /** `m` has `rows` rows of `cols` entries each. */
  predicate IsMatrix(m: Matrix, rows: nat, cols: nat)
  {
    |m| == rows && forall r :: 0 <= r < rows ==> |m[r]| == cols
  }

  /** `t` has shape d0 x d1 x d2. */
  predicate IsTensor3(t: Tensor3, d0: nat, d1: nat, d2: nat)
  {
    |t| == d0 && forall x :: 0 <= x < d0 ==> IsMatrix(t[x], d1, d2)
  }

  /** Position of entry (c, d) of a matrix with `h` columns once flattened row-major. */
  function FlatIndex(c: nat, d: nat, h: nat): nat
  {
    c * h + d
  }

  /** Row of flat position `k` in a matrix with `h` columns. */
  function RowOf(k: nat, h: nat): nat
    requires h > 0
  {
    k / h
  }

  /** Column of flat position `k` in a matrix with `h` columns. */
  function ColOf(k: nat, h: nat): nat
    requires h > 0
  {
    k % h
  }

  /** Concatenation of the rows of `m`, first row first: the row-major reshape. */
  function Flatten(m: Matrix): seq<real>
  {
    if |m| == 0 then [] else m[0] + Flatten(m[1..])
  }

  /** Flattening distributes over stacking rows. */
  lemma {:induction false} FlattenConcat(x: Matrix, y: Matrix)
    ensures Flatten(x + y) == Flatten(x) + Flatten(y)
  {
    if |x| > 0 {
      assert (x + y)[1..] == x[1..] + y;
      FlattenConcat(x[1..], y);
    } else {
      assert x + y == y;
    }
  }

  /** A flattened matrix of `rows` rows of width `h` has `rows * h` entries. */
  lemma {:induction false} FlattenLength(m: Matrix, rows: nat, h: nat)
    requires IsMatrix(m, rows, h)
    ensures |Flatten(m)| == rows * h
  {
    if rows > 0 {
      FlattenLength(m[1..], rows - 1, h);
    }
  }

  /** Entry (c, d) of a matrix of width `h` sits at position c*h + d of its flattening. */
  lemma {:induction false} FlattenIndex(m: Matrix, rows: nat, h: nat, c: nat, d: nat)
    requires IsMatrix(m, rows, h) && c < rows && d < h
    ensures FlatIndex(c, d, h) < |Flatten(m)|
    ensures Flatten(m)[FlatIndex(c, d, h)] == m[c][d]
  {
    FlattenLength(m, rows, h);
    var f := Flatten(m);
    if c > 0 {
      var rest := Flatten(m[1..]);
      FlattenIndex(m[1..], rows - 1, h, c - 1, d);
      var k := FlatIndex(c - 1, d, h);
      MulSucc(c - 1, h);
      assert FlatIndex(c, d, h) == h + k;
      assert f == m[0] + rest && |m[0]| == h;
      assert f[h + k] == rest[k] == m[1..][c - 1][d];
    } else {
      assert f == m[0] + Flatten(m[1..]);
    }
  }

  /** Every flat position k < rows*h is FlatIndex of the unique (RowOf, ColOf) pair. */
  lemma FlatIndexInverse(k: nat, rows: nat, h: nat)
    requires h > 0 && k < rows * h
    ensures RowOf(k, h) < rows && ColOf(k, h) < h
    ensures FlatIndex(RowOf(k, h), ColOf(k, h), h) == k
  {
    var q, r := k / h, k % h;
    assert k == q * h + r;
    if q >= rows {
      MulAtLeast(q - rows, h);
    }
  }

  /** One more row of width `h` adds `h`. */
  lemma MulSucc(x: nat, h: nat)
    ensures (x + 1) * h == x * h + h
  {
  }

  /** A positive multiple of `h` is at least `h`. */
  lemma MulAtLeast(x: int, h: nat)
    requires x >= 0
    ensures x * h >= 0
    ensures x >= 1 ==> x * h >= h
  {
  }

  /** Multiplying by a row width preserves order. */
  lemma MulMonotone(x: nat, y: nat, h: nat)
    requires x <= y
    ensures x * h <= y * h
  {
    MulAtLeast(y - x, h);
    assert y * h - x * h == (y - x) * h;
  }

  /** A strict order between multiples of `h` is an order between the factors. */
  lemma MulLessCancel(x: nat, y: nat, h: nat)
    ensures x * h < y * h ==> x < y
  {
    if x >= y {
      MulMonotone(y, x, h);
    }
  }

  /** The (row, column) pair of a flat position is unique. */
  lemma FlatIndexUnique(c: nat, d: nat, h: nat)
    requires d < h
    ensures RowOf(FlatIndex(c, d, h), h) == c && ColOf(FlatIndex(c, d, h), h) == d
  {
    var k := c * h + d;
    var q, r := k / h, k % h;
    assert q * h + r == c * h + d;
    if q > c {
      assert (q - c) * h == d - r;
      MulAtLeast(q - c, h);
    } else if q < c {
      assert (c - q) * h == r - d;
      MulAtLeast(c - q, h);
    }
  }

  /** Flat position k lies in row r, i.e. in [r*h, r*h + h), exactly when r == k / h. */
  lemma RowBlock(k: nat, r: nat, h: nat)
    requires h > 0
    ensures r * h <= k < r * h + h <==> r == RowOf(k, h)
  {
    if r * h <= k < r * h + h {
      FlatIndexUnique(r, k - r * h, h);
      assert k == FlatIndex(r, k - r * h, h);
    }
    if r == RowOf(k, h) {
      assert k == r * h + ColOf(k, h);
    }
  }

  /** Multiplying a difference by a row width. */
  lemma MulSubDistrib(x: nat, y: nat, h: nat)
    requires x <= y
    ensures (y - x) * h == y * h - x * h
  {
  }

  /** Flattening rows [lo, hi) yields exactly the flat positions [lo*h, hi*h). */
  lemma FlattenRows(m: Matrix, rows: nat, h: nat, lo: nat, hi: nat)
    requires IsMatrix(m, rows, h) && lo <= hi <= rows
    ensures lo * h <= hi * h <= |Flatten(m)|
    ensures Flatten(m[lo..hi]) == Flatten(m)[lo * h..hi * h]
  {
    var front, middle, back := m[..lo], m[lo..hi], m[hi..];
    assert m == front + middle + back;
    FlattenConcat(front + middle, back);
    FlattenConcat(front, middle);
    FlattenLength(front, lo, h);
    FlattenLength(middle, hi - lo, h);
    FlattenLength(m, rows, h);
    MulSubDistrib(lo, hi, h);
    MulMonotone(lo, hi, h);
    MulMonotone(hi, rows, h);
    var f := Flatten(m);
    assert f == Flatten(front) + Flatten(middle) + Flatten(back);
    assert |Flatten(front)| == lo * h && |Flatten(middle)| == hi * h - lo * h;
  }

  /** Every entry of `v` divided by `q`. */
  function DivideAll(v: seq<real>, q: real): (r: seq<real>)
    requires q != 0.0
    ensures |r| == |v|
    ensures forall k :: 0 <= k < |v| ==> r[k] * q == v[k]
  {
    seq(|v|, k requires 0 <= k < |v| => v[k] / q)
  }

  /** Dividing a block of a sequence is the same block of the divided sequence. */
  lemma DivideAllSlice(v: seq<real>, q: real, lo: nat, hi: nat)
    requires q != 0.0 && lo <= hi <= |v|
    ensures DivideAll(v[lo..hi], q) == DivideAll(v, q)[lo..hi]
  {
    var lhs, rhs := DivideAll(v[lo..hi], q), DivideAll(v, q)[lo..hi];
    assert forall k :: 0 <= k < hi - lo ==> lhs[k] == v[lo + k] / q == rhs[k];
  }

  /** Entrywise sum of two equally shaped tensors. */
  function AddTensor(x: Tensor3, y: Tensor3, d0: nat, d1: nat, d2: nat): (r: Tensor3)
    requires IsTensor3(x, d0, d1, d2) && IsTensor3(y, d0, d1, d2)
    ensures IsTensor3(r, d0, d1, d2)
    ensures forall p, q, o :: 0 <= p < d0 && 0 <= q < d1 && 0 <= o < d2 ==>
      r[p][q][o] == x[p][q][o] + y[p][q][o]
  {
    seq(d0, p requires 0 <= p < d0 =>
      seq(d1, q requires 0 <= q < d1 =>
        seq(d2, o requires 0 <= o < d2 => x[p][q][o] + y[p][q][o])))
  }

  /** Two tensors of the same shape with the same entries are equal. */
  lemma TensorExt(x: Tensor3, y: Tensor3, d0: nat, d1: nat, d2: nat)
    requires IsTensor3(x, d0, d1, d2) && IsTensor3(y, d0, d1, d2)
    requires forall p, q, o :: 0 <= p < d0 && 0 <= q < d1 && 0 <= o < d2 ==> x[p][q][o] == y[p][q][o]
    ensures x == y
  {
    forall p | 0 <= p < d0
      ensures x[p] == y[p]
    {
      forall q | 0 <= q < d1
        ensures x[p][q] == y[p][q]
      {
        assert forall o :: 0 <= o < d2 ==> x[p][q][o] == y[p][q][o];
      }
    }
  }

  /** Flattening an all-zero matrix gives all zeros. */
  lemma {:induction false} FlattenZeros(m: Matrix, rows: nat, h: nat)
    requires IsMatrix(m, rows, h)
    requires forall c, d :: 0 <= c < rows && 0 <= d < h ==> m[c][d] == 0.0
    ensures forall k :: 0 <= k < |Flatten(m)| ==> Flatten(m)[k] == 0.0
  {
    if rows > 0 {
      FlattenZeros(m[1..], rows - 1, h);
    }
  }
}
