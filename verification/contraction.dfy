/** The contraction stage: the outer product of the left and right hidden vectors
    summed over the sequence axis (`einsum("bsic,bsjd->bijcd")` for one batch),
    flattened row-major and divided by the pair divisor. */
module Contraction {
  import opened Sums
  import opened Tensors
  import opened PairMask
  import opened Chunking

  /** Every sequence row of `t` has a channel vector of length `h` at residue `i`.
      The pair value of (i, j) reads only residues i and j, so the functions of
      this module ask for this per-residue slice of `IsTensor3` rather than the
      whole shape: `IsTensor3(t, S, N, h)` gives it for every i < N, and the
      layer's callers discharge it from `WellShaped` that way. */
  predicate HasChannels(t: Tensor3, i: nat, h: nat)
  {
    forall s :: 0 <= s < |t| ==> i < |t[s]| && |t[s][i]| == h
  }

  /** The products a[s][i][c] * b[s][j][d], one per sequence row s. */
  function OuterTerms(a: Tensor3, b: Tensor3, i: nat, j: nat, c: nat, d: nat): (r: seq<real>)
    requires |a| == |b|
    requires forall s :: 0 <= s < |a| ==> i < |a[s]| && c < |a[s][i]| && j < |b[s]| && d < |b[s][j]|
    ensures |r| == |a|
    ensures forall s :: 0 <= s < |a| ==> r[s] == a[s][i][c] * b[s][j][d]
  {
    seq(|a|, s requires 0 <= s < |a| => a[s][i][c] * b[s][j][d])
  }

  /** z[i, j, c, d]: the sum over sequence rows s of a[s][i][c] * b[s][j][d]. */
  function OuterSum(a: Tensor3, b: Tensor3, i: nat, j: nat, c: nat, d: nat): real
    requires |a| == |b|
    requires forall s :: 0 <= s < |a| ==> i < |a[s]| && c < |a[s][i]| && j < |b[s]| && d < |b[s][j]|
  {
    Sum(OuterTerms(a, b, i, j, c, d))
  }

  /** The ha x hb matrix of outer sums for the residue pair (i, j). */
  function OuterMatrix(a: Tensor3, b: Tensor3, i: nat, j: nat, ha: nat, hb: nat): (r: Matrix)
    requires |a| == |b| && HasChannels(a, i, ha) && HasChannels(b, j, hb)
    ensures IsMatrix(r, ha, hb)
    ensures forall c, d :: 0 <= c < ha && 0 <= d < hb ==> r[c][d] == OuterSum(a, b, i, j, c, d)
  {
    seq(ha, c requires 0 <= c < ha =>
      seq(hb, d requires 0 <= d < hb => OuterSum(a, b, i, j, c, d)))
  }

  /** The flattened, divided outer-product mean of residue pair (i, j):
      `z.reshape(..., -1) / mask.sum(dim=1).clamp(min=1)` at (i, j). */
  function PairZ(a: Tensor3, b: Tensor3, mask: Matrix, i: nat, j: nat, h: nat): (r: seq<real>)
    requires |a| == |b| == |mask| && HasChannels(a, i, h) && HasChannels(b, j, h)
    requires HasResidue(mask, i) && HasResidue(mask, j)
    ensures |r| == h * h
  {
    var m := OuterMatrix(a, b, i, j, h, h);
    FlattenLength(m, h, h);
    DivideAll(Flatten(m), Divisor(mask, i, j))
  }

  /** Entry c*h + d of the flattened pair value is the (c, d) outer sum divided
      by the pair divisor: the reshape is row-major. */
  lemma PairZRowMajor(a: Tensor3, b: Tensor3, mask: Matrix, i: nat, j: nat, h: nat, c: nat, d: nat)
    requires |a| == |b| == |mask| && HasChannels(a, i, h) && HasChannels(b, j, h)
    requires HasResidue(mask, i) && HasResidue(mask, j)
    requires c < h && d < h
    ensures FlatIndex(c, d, h) < h * h
    ensures PairZ(a, b, mask, i, j, h)[FlatIndex(c, d, h)] == OuterSum(a, b, i, j, c, d) / Divisor(mask, i, j)
  {
    var m := OuterMatrix(a, b, i, j, h, h);
    FlattenLength(m, h, h);
    FlattenIndex(m, h, h, c, d);
  }

  /** The channels [lo, hi) of every hidden vector: `a[..., lo:hi]`. */
  function SliceChannels(a: Tensor3, n: nat, h: nat, lo: nat, hi: nat): (r: Tensor3)
    requires IsTensor3(a, |a|, n, h) && lo <= hi <= h
    ensures IsTensor3(r, |a|, n, hi - lo)
    ensures forall s, i, c :: 0 <= s < |a| && 0 <= i < n && 0 <= c < hi - lo ==> r[s][i][c] == a[s][i][lo + c]
  {
    seq(|a|, s requires 0 <= s < |a| => seq(n, i requires 0 <= i < n => a[s][i][lo..hi]))
  }

  /** The flattened, divided partial result of one chunk: the A channels of
      `ch` contracted against all B channels, divided by the same pair divisor. */
  function ChunkZ(a: Tensor3, b: Tensor3, mask: Matrix, n: nat, h: nat, ch: Chunk, i: nat, j: nat): (r: seq<real>)
    requires |a| == |b| == |mask| && IsTensor3(a, |a|, n, h) && IsTensor3(b, |b|, n, h)
    requires IsMatrix(mask, |mask|, n) && i < n && j < n
    requires ch.lo <= ch.hi <= h
    ensures |r| == (ch.hi - ch.lo) * h
  {
    var part := SliceChannels(a, n, h, ch.lo, ch.hi);
    var m := OuterMatrix(part, b, i, j, ch.hi - ch.lo, h);
    FlattenLength(m, ch.hi - ch.lo, h);
    DivideAll(Flatten(m), Divisor(mask, i, j))
  }

  /** The outer sums of the channel slice [lo, hi) of `a` are rows [lo, hi) of
      the full outer-sum matrix. */
  lemma OuterMatrixOfSlice(a: Tensor3, b: Tensor3, n: nat, h: nat, lo: nat, hi: nat, i: nat, j: nat)
    requires |a| == |b| && IsTensor3(a, |a|, n, h) && IsTensor3(b, |b|, n, h)
    requires i < n && j < n && lo <= hi <= h
    ensures OuterMatrix(SliceChannels(a, n, h, lo, hi), b, i, j, hi - lo, h)
      == OuterMatrix(a, b, i, j, h, h)[lo..hi]
  {
    var part := SliceChannels(a, n, h, lo, hi);
    var whole := OuterMatrix(a, b, i, j, h, h);
    var m := OuterMatrix(part, b, i, j, hi - lo, h);
    forall c | 0 <= c < hi - lo
      ensures m[c] == whole[lo + c]
    {
      forall d | 0 <= d < h
        ensures m[c][d] == whole[lo + c][d]
      {
        var t1, t2 := OuterTerms(part, b, i, j, c, d), OuterTerms(a, b, i, j, lo + c, d);
        assert forall s :: 0 <= s < |a| ==> t1[s] == part[s][i][c] * b[s][j][d] == t2[s];
        assert t1 == t2;
      }
    }
    assert m == whole[lo..hi];
  }

  /** A chunk's partial value is exactly the block [lo*h, hi*h) of the dense
      flattened pair value, so dividing per chunk agrees with the dense divide. */
  lemma ChunkZIsBlock(a: Tensor3, b: Tensor3, mask: Matrix, n: nat, h: nat, ch: Chunk, i: nat, j: nat)
    requires |a| == |b| == |mask| && IsTensor3(a, |a|, n, h) && IsTensor3(b, |b|, n, h)
    requires IsMatrix(mask, |mask|, n) && i < n && j < n
    requires ch.lo <= ch.hi <= h
    ensures ch.lo * h <= ch.hi * h <= h * h
    ensures ChunkZ(a, b, mask, n, h, ch, i, j) == PairZ(a, b, mask, i, j, h)[ch.lo * h..ch.hi * h]
  {
    var whole := OuterMatrix(a, b, i, j, h, h);
    var m := OuterMatrix(SliceChannels(a, n, h, ch.lo, ch.hi), b, i, j, ch.hi - ch.lo, h);
    OuterMatrixOfSlice(a, b, n, h, ch.lo, ch.hi, i, j);
    FlattenRows(whole, h, h, ch.lo, ch.hi);
    FlattenLength(whole, h, h);
    var q := Divisor(mask, i, j);
    var v := Flatten(whole);
    var lo, hi := ch.lo * h, ch.hi * h;
    assert Flatten(m) == v[lo..hi];
    assert ChunkZ(a, b, mask, n, h, ch, i, j) == DivideAll(v[lo..hi], q);
    assert PairZ(a, b, mask, i, j, h) == DivideAll(v, q);
    DivideAllSlice(v, q, lo, hi);
  }

  /** With a = b the outer sum is symmetric: z[i, j, c, d] == z[j, i, d, c]. */
  lemma OuterSumSymmetric(a: Tensor3, i: nat, j: nat, h: nat, c: nat, d: nat)
    requires HasChannels(a, i, h) && HasChannels(a, j, h) && c < h && d < h
    ensures OuterSum(a, a, i, j, c, d) == OuterSum(a, a, j, i, d, c)
  {
    var t1, t2 := OuterTerms(a, a, i, j, c, d), OuterTerms(a, a, j, i, d, c);
    assert forall s :: 0 <= s < |a| ==> t1[s] == a[s][i][c] * a[s][j][d] == t2[s];
    assert t1 == t2;
  }

  /** With a = b the pair value is symmetric under swapping (i, c) with (j, d):
      z[i, j, c, d] == z[j, i, d, c]. */
  lemma PairZSymmetric(a: Tensor3, mask: Matrix, i: nat, j: nat, h: nat, c: nat, d: nat)
    requires |a| == |mask| && HasChannels(a, i, h) && HasChannels(a, j, h)
    requires HasResidue(mask, i) && HasResidue(mask, j)
    requires c < h && d < h
    ensures FlatIndex(c, d, h) < h * h && FlatIndex(d, c, h) < h * h
    ensures PairZ(a, a, mask, i, j, h)[FlatIndex(c, d, h)] == PairZ(a, a, mask, j, i, h)[FlatIndex(d, c, h)]
  {
    PairZRowMajor(a, a, mask, i, j, h, c, d);
    PairZRowMajor(a, a, mask, j, i, h, d, c);
    DivisorSymmetric(mask, i, j);
    OuterSumSymmetric(a, i, j, h, c, d);
  }

  /** Re-ordering the sequence rows of a, b and the mask together leaves the
      pair value unchanged. */
  lemma PairZPermutationInvariant(a: Tensor3, b: Tensor3, mask: Matrix, p: seq<nat>, i: nat, j: nat, h: nat)
    requires |a| == |b| == |mask| && HasChannels(a, i, h) && HasChannels(b, j, h)
    requires HasResidue(mask, i) && HasResidue(mask, j)
    requires IsPermutation(p, |mask|)
    ensures HasChannels(Permute(a, p), i, h) && HasChannels(Permute(b, p), j, h)
    ensures HasResidue(Permute(mask, p), i) && HasResidue(Permute(mask, p), j)
    ensures PairZ(Permute(a, p), Permute(b, p), Permute(mask, p), i, j, h) == PairZ(a, b, mask, i, j, h)
  {
    var pa, pb := Permute(a, p), Permute(b, p);
    DivisorPermutationInvariant(mask, p, i, j);
    forall c, d | 0 <= c < h && 0 <= d < h
      ensures OuterSum(pa, pb, i, j, c, d) == OuterSum(a, b, i, j, c, d)
    {
      var terms := OuterTerms(a, b, i, j, c, d);
      var moved := OuterTerms(pa, pb, i, j, c, d);
      assert forall s :: 0 <= s < |p| ==> moved[s] == terms[p[s]];
      assert moved == Permute(terms, p);
      SumPermute(terms, p);
    }
    var m1, m2 := OuterMatrix(pa, pb, i, j, h, h), OuterMatrix(a, b, i, j, h, h);
    forall c | 0 <= c < h
      ensures m1[c] == m2[c]
    {
      assert forall d :: 0 <= d < h ==> m1[c][d] == m2[c][d];
    }
    assert m1 == m2;
  }

  /** If the mask zeroes residue i in every row (as it does for a left vector
      masked by an all-invalid mask), the pair value of (i, j) is all zeros. */
  lemma PairZZeroWhenLeftMasked(a: Tensor3, b: Tensor3, mask: Matrix, i: nat, j: nat, h: nat)
    requires |a| == |b| == |mask| && HasChannels(a, i, h) && HasChannels(b, j, h)
    requires HasResidue(mask, i) && HasResidue(mask, j)
    requires forall s, c :: 0 <= s < |a| && 0 <= c < h ==> a[s][i][c] == 0.0
    ensures forall k :: 0 <= k < h * h ==> PairZ(a, b, mask, i, j, h)[k] == 0.0
  {
    var m := OuterMatrix(a, b, i, j, h, h);
    forall c, d | 0 <= c < h && 0 <= d < h
      ensures m[c][d] == 0.0
    {
      SumOfZeros(OuterTerms(a, b, i, j, c, d));
    }
    FlattenZeros(m, h, h);
  }

  /** The outer products of the rows in which residues i and j are both valid:
      pa[s][i][c] * pb[s][j][d] where mask[s][i] and mask[s][j] are 1, and 0
      in every other row. */
  function ValidOuterTerms(pa: Tensor3, pb: Tensor3, mask: Matrix, n: nat, h: nat, i: nat, j: nat, c: nat, d: nat): (r: seq<real>)
    requires IsMatrix(mask, |mask|, n) && IsTensor3(pa, |mask|, n, h) && IsTensor3(pb, |mask|, n, h)
    requires i < n && j < n && c < h && d < h
    ensures |r| == |mask|
    ensures forall s :: 0 <= s < |mask| && (mask[s][i] == 0.0 || mask[s][j] == 0.0) ==> r[s] == 0.0
  {
    seq(|mask|, s requires 0 <= s < |mask| =>
      if mask[s][i] == 1.0 && mask[s][j] == 1.0 then pa[s][i][c] * pb[s][j][d] else 0.0)
  }

  /** With a 0/1 mask, the outer sum of the masked projections adds up only the
      rows in which both residues are valid: a row with mask[s][i] == 0 or
      mask[s][j] == 0 contributes nothing. */
  lemma MaskedOuterSum(pa: Tensor3, pb: Tensor3, mask: Matrix, n: nat, h: nat, i: nat, j: nat, c: nat, d: nat)
    requires IsMatrix(mask, |mask|, n) && IsTensor3(pa, |mask|, n, h) && IsTensor3(pb, |mask|, n, h)
    requires IsBinaryMask(mask) && i < n && j < n && c < h && d < h
    ensures OuterSum(ApplyMask(pa, mask, n, h), ApplyMask(pb, mask, n, h), i, j, c, d)
      == Sum(ValidOuterTerms(pa, pb, mask, n, h, i, j, c, d))
  {
    var a, b := ApplyMask(pa, mask, n, h), ApplyMask(pb, mask, n, h);
    var terms := OuterTerms(a, b, i, j, c, d);
    var valid := ValidOuterTerms(pa, pb, mask, n, h, i, j, c, d);
    forall s | 0 <= s < |mask|
      ensures terms[s] == valid[s]
    {
      assert mask[s][i] == 0.0 || mask[s][i] == 1.0;
      assert mask[s][j] == 0.0 || mask[s][j] == 1.0;
    }
    assert terms == valid;
  }

  /** The outer-product mean: with a 0/1 mask, entry c*h + d of the pair value of
      (i, j) is the sum of pa[s][i][c] * pb[s][j][d] over the rows in which both
      residues are valid, divided by the number of those rows (or by 1 when
      there are none). */
  lemma PairZIsValidMean(pa: Tensor3, pb: Tensor3, mask: Matrix, n: nat, h: nat, i: nat, j: nat, c: nat, d: nat)
    requires IsMatrix(mask, |mask|, n) && IsTensor3(pa, |mask|, n, h) && IsTensor3(pb, |mask|, n, h)
    requires IsBinaryMask(mask) && i < n && j < n && c < h && d < h
    ensures FlatIndex(c, d, h) < h * h
    ensures var count := ValidPairCount(mask, i, j);
      PairZ(ApplyMask(pa, mask, n, h), ApplyMask(pb, mask, n, h), mask, i, j, h)[FlatIndex(c, d, h)]
        == Sum(ValidOuterTerms(pa, pb, mask, n, h, i, j, c, d)) / (if count == 0 then 1 else count) as real
  {
    var a, b := ApplyMask(pa, mask, n, h), ApplyMask(pb, mask, n, h);
    PairZRowMajor(a, b, mask, i, j, h, c, d);
    MaskedOuterSum(pa, pb, mask, n, h, i, j, c, d);
    DivisorIsClampedCount(mask, i, j);
  }
}
