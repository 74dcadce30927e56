/** Finite sums and dot products over exact real sequences. */
module Sums {

  /** The sum of all entries of `t`. */
  function Sum(t: seq<real>): real
  {
    if |t| == 0 then 0.0 else t[0] + Sum(t[1..])
  }

  /** Summation distributes over concatenation. */
  lemma {:induction false} SumConcat(x: seq<real>, y: seq<real>)
    ensures Sum(x + y) == Sum(x) + Sum(y)
  {
    if |x| == 0 {
      assert x + y == y;
    } else {
      assert (x + y)[1..] == x[1..] + y;
      SumConcat(x[1..], y);
    }
  }

  /** A sum splits at any cut point into the sums of the two halves. */
  lemma SumSplit(t: seq<real>, m: nat)
    requires m <= |t|
    ensures Sum(t) == Sum(t[..m]) + Sum(t[m..])
  {
    assert t == t[..m] + t[m..];
    SumConcat(t[..m], t[m..]);
  }

  /** A sum of zeros is zero. */
  lemma {:induction false} SumOfZeros(t: seq<real>)
    requires forall k :: 0 <= k < |t| ==> t[k] == 0.0
    ensures Sum(t) == 0.0
  {
    if |t| > 0 {
      SumOfZeros(t[1..]);
    }
  }

  /** `p` is a bijection of the index range [0, n). */
  predicate IsPermutation(p: seq<nat>, n: nat)
  {
    && |p| == n
    && (forall s :: 0 <= s < n ==> p[s] < n)
    && (forall s, u :: 0 <= s < u < n ==> p[s] != p[u])
    && (forall v: nat :: v < n ==> v in p)
  }

  /** The sequence whose entry `s` is `t[p[s]]`: `t` re-ordered by `p`. */
  function Permute<T>(t: seq<T>, p: seq<nat>): (r: seq<T>)
    requires forall s :: 0 <= s < |p| ==> p[s] < |t|
    ensures |r| == |p|
    ensures forall s :: 0 <= s < |p| ==> r[s] == t[p[s]]
  {
    seq(|p|, s requires 0 <= s < |p| => t[p[s]])
  }

  /** Removing the entry at `k` from a permutation of [0, n) whose entry at `k` is
      `n - 1` leaves a permutation of [0, n - 1). */
  lemma DropLargest(p: seq<nat>, n: nat, k: nat)
    requires n > 0 && IsPermutation(p, n)
    requires k < n && p[k] == n - 1
    ensures IsPermutation(p[..k] + p[k + 1..], n - 1)
  {
    var q := p[..k] + p[k + 1..];
    assert forall s :: 0 <= s < n - 1 ==> q[s] == (if s < k then p[s] else p[s + 1]);
    forall v: nat | v < n - 1
      ensures v in q
    {
      assert v in p;
      var s :| 0 <= s < n && p[s] == v;
      if s < k {
        assert q[s] == v;
      } else {
        assert s != k;
        assert q[s - 1] == v;
      }
    }
  }

  /** Entry s of `x` without its entry k is entry s of `x` before k and entry
      s + 1 from k on. */
  lemma DropIndex<T>(x: seq<T>, k: nat)
    requires k < |x|
    ensures |x[..k] + x[k + 1..]| == |x| - 1
    ensures forall s :: 0 <= s < |x| - 1 ==> (x[..k] + x[k + 1..])[s] == (if s < k then x[s] else x[s + 1])
  {
  }

  /** Summing a sequence with one entry taken out and added back separately. */
  lemma SumRemove(t: seq<real>, k: nat)
    requires k < |t|
    ensures Sum(t) == Sum(t[..k] + t[k + 1..]) + t[k]
  {
    var front, back := t[..k], t[k + 1..];
    var rest := t[k..];
    SumSplit(t, k);
    assert rest[1..] == back;
    assert Sum(rest) == t[k] + Sum(back);
    SumConcat(front, back);
  }

  /** Summing a sequence as its proper prefix plus its last entry. */
  lemma SumLast(t: seq<real>)
    requires |t| > 0
    ensures Sum(t) == Sum(t[..|t| - 1]) + t[|t| - 1]
  {
    SumRemove(t, |t| - 1);
    assert t[..|t| - 1] + t[|t|..] == t[..|t| - 1];
  }

  /** Re-ordering all but the last entry by `p` without its entry `k`
      (which picks the last entry) gives `t` re-ordered by `p` without entry `k`. */
  lemma PermuteDropLargest(t: seq<real>, p: seq<nat>, k: nat)
    requires |t| > 0 && IsPermutation(p, |t|) && k < |t| && p[k] == |t| - 1
    ensures IsPermutation(p[..k] + p[k + 1..], |t| - 1)
    ensures Permute(t[..|t| - 1], p[..k] + p[k + 1..]) == Permute(t, p)[..k] + Permute(t, p)[k + 1..]
  {
    var n := |t|;
    var q := p[..k] + p[k + 1..];
    DropLargest(p, n, k);
    var pt := Permute(t, p);
    var lhs, rhs := Permute(t[..n - 1], q), pt[..k] + pt[k + 1..];
    DropIndex(p, k);
    DropIndex(pt, k);
    forall s | 0 <= s < n - 1
      ensures lhs[s] == rhs[s]
    {
      var u := if s < k then s else s + 1;
      assert q[s] == p[u] && rhs[s] == pt[u];
    }
  }

  /** A sum does not depend on the order of its terms. */
  lemma {:induction false} SumPermute(t: seq<real>, p: seq<nat>)
    requires IsPermutation(p, |t|)
    ensures Sum(Permute(t, p)) == Sum(t)
  {
    var n := |t|;
    if n > 0 {
      assert n - 1 in p;
      var k :| 0 <= k < n && p[k] == n - 1;
      var q := p[..k] + p[k + 1..];
      DropLargest(p, n, k);
      var front := t[..n - 1];
      var pt := Permute(t, p);
      PermuteDropLargest(t, p, k);
      SumRemove(pt, k);
      SumPermute(front, q);
      SumLast(t);
    }
  }

  /** Entrywise products of two equally long sequences. */
  function Products(u: seq<real>, v: seq<real>): (r: seq<real>)
    requires |u| == |v|
    ensures |r| == |u|
    ensures forall k :: 0 <= k < |u| ==> r[k] == u[k] * v[k]
  {
    seq(|u|, k requires 0 <= k < |u| => u[k] * v[k])
  }

  /** The dot product of two equally long sequences. */
  function Dot(u: seq<real>, v: seq<real>): real
    requires |u| == |v|
  {
    Sum(Products(u, v))
  }

  /** A dot product splits at any cut point into the dot products of the halves. */
  lemma DotSplit(u: seq<real>, v: seq<real>, m: nat)
    requires |u| == |v| && m <= |u|
    ensures Dot(u, v) == Dot(u[..m], v[..m]) + Dot(u[m..], v[m..])
  {
    ProductsTake(u, v, m);
    ProductsDrop(u, v, m);
    SumSplit(Products(u, v), m);
  }

  /** The products of two prefixes are the prefix of the products. */
  lemma ProductsTake(u: seq<real>, v: seq<real>, m: nat)
    requires |u| == |v| && m <= |u|
    ensures Products(u[..m], v[..m]) == Products(u, v)[..m]
  {
    var x, y := u[..m], v[..m];
    var left, pr := Products(x, y), Products(u, v);
    forall k | 0 <= k < m
      ensures left[k] == pr[k]
    {
      assert x[k] == u[k] && y[k] == v[k];
    }
  }

  /** The products of two suffixes are the suffix of the products. */
  lemma ProductsDrop(u: seq<real>, v: seq<real>, m: nat)
    requires |u| == |v| && m <= |u|
    ensures Products(u[m..], v[m..]) == Products(u, v)[m..]
  {
    var x, y := u[m..], v[m..];
    var right, pr := Products(x, y), Products(u, v);
    forall k | 0 <= k < |u| - m
      ensures right[k] == pr[m + k]
    {
      assert x[k] == u[m + k] && y[k] == v[m + k];
    }
  }

  /** Extending a prefix dot product by the block [lo, hi) adds that block's dot product. */
  lemma DotPrefixExtend(u: seq<real>, v: seq<real>, lo: nat, hi: nat)
    requires |u| == |v| && lo <= hi <= |u|
    ensures Dot(u[..hi], v[..hi]) == Dot(u[..lo], v[..lo]) + Dot(u[lo..hi], v[lo..hi])
  {
    DotSplit(u[..hi], v[..hi], lo);
    assert u[..hi][..lo] == u[..lo] && v[..hi][..lo] == v[..lo];
    assert u[..hi][lo..] == u[lo..hi] && v[..hi][lo..] == v[lo..hi];
  }
}
