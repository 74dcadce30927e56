/** The masking stage: zeroing invalid sequence entries, and the pair-validity
    count that divides the outer-product sum. */
module PairMask {
  import opened Sums
  import opened Tensors

  /** Every row of the mask has an entry for residue `i`: the per-residue slice
      of `IsMatrix(mask, S, N)`, which gives it for every i < N. The divisor of
      (i, j) reads only columns i and j, so it asks for no more. */
  predicate HasResidue(mask: Matrix, i: nat)
  {
    forall s :: 0 <= s < |mask| ==> i < |mask[s]|
  }

  /** Every mask entry is 0 or 1. */
  predicate IsBinaryMask(mask: Matrix)
  {
    forall s, i :: 0 <= s < |mask| && 0 <= i < |mask[s]| ==> mask[s][i] == 0.0 || mask[s][i] == 1.0
  }

  /** Every mask entry has the value `v`. */
  predicate IsConstantMask(mask: Matrix, v: real)
  {
    forall s, i :: 0 <= s < |mask| && 0 <= i < |mask[s]| ==> mask[s][i] == v
  }

  /** A projection `p` (rows x residues x channels) multiplied by the mask
      broadcast over the channel axis: invalid entries become zero vectors,
      valid entries are kept. */
  function ApplyMask(p: Tensor3, mask: Matrix, n: nat, h: nat): (r: Tensor3)
    requires IsMatrix(mask, |mask|, n) && IsTensor3(p, |mask|, n, h)
    ensures IsTensor3(r, |mask|, n, h)
    ensures forall s, i, c :: 0 <= s < |mask| && 0 <= i < n && 0 <= c < h && mask[s][i] == 0.0 ==>
      r[s][i][c] == 0.0
    ensures forall s, i, c :: 0 <= s < |mask| && 0 <= i < n && 0 <= c < h && mask[s][i] == 1.0 ==>
      r[s][i][c] == p[s][i][c]
  {
    seq(|mask|, s requires 0 <= s < |mask| =>
      seq(n, i requires 0 <= i < n =>
        seq(h, c requires 0 <= c < h => p[s][i][c] * mask[s][i])))
  }

  /** The pairwise mask `mask[s][i] * mask[s][j]` for each sequence row. */
  function PairMaskTerms(mask: Matrix, i: nat, j: nat): (r: seq<real>)
    requires HasResidue(mask, i) && HasResidue(mask, j)
    ensures |r| == |mask|
  {
    seq(|mask|, s requires 0 <= s < |mask| => mask[s][i] * mask[s][j])
  }

  /** The pairwise mask summed over the sequence axis. */
  function PairMaskSum(mask: Matrix, i: nat, j: nat): real
    requires HasResidue(mask, i) && HasResidue(mask, j)
  {
    Sum(PairMaskTerms(mask, i, j))
  }

  /** The divisor of residue pair (i, j): the pair-mask sum clamped below at 1,
      so it is never zero and equals the sum whenever the sum reaches 1. */
  function Divisor(mask: Matrix, i: nat, j: nat): (r: real)
    requires HasResidue(mask, i) && HasResidue(mask, j)
    ensures r >= 1.0
    ensures PairMaskSum(mask, i, j) >= 1.0 ==> r == PairMaskSum(mask, i, j)
    ensures PairMaskSum(mask, i, j) < 1.0 ==> r == 1.0
  {
    var total := PairMaskSum(mask, i, j);
    if total < 1.0 then 1.0 else total
  }

  /** The number of sequence rows in which residues i and j are both valid. */
  function ValidPairCount(mask: Matrix, i: nat, j: nat): (r: nat)
    requires HasResidue(mask, i) && HasResidue(mask, j)
    ensures r <= |mask|
  {
    if |mask| == 0 then 0
    else (if mask[0][i] == 1.0 && mask[0][j] == 1.0 then 1 else 0) + ValidPairCount(mask[1..], i, j)
  }

  /** For a 0/1 mask the pair-mask sum counts the rows where both residues are valid. */
  lemma {:induction false} PairMaskSumCounts(mask: Matrix, i: nat, j: nat)
    requires HasResidue(mask, i) && HasResidue(mask, j) && IsBinaryMask(mask)
    ensures PairMaskSum(mask, i, j) == ValidPairCount(mask, i, j) as real
  {
    if |mask| > 0 {
      assert PairMaskTerms(mask, i, j)[1..] == PairMaskTerms(mask[1..], i, j);
      PairMaskSumCounts(mask[1..], i, j);
    }
  }

  /** For a 0/1 mask with S rows the divisor is max(1, number of rows where both
      residues are valid), hence between 1 and max(1, S). */
  lemma DivisorIsClampedCount(mask: Matrix, i: nat, j: nat)
    requires HasResidue(mask, i) && HasResidue(mask, j) && IsBinaryMask(mask)
    ensures var count := ValidPairCount(mask, i, j);
      Divisor(mask, i, j) == (if count == 0 then 1 else count) as real
    ensures 1.0 <= Divisor(mask, i, j) <= (if |mask| == 0 then 1 else |mask|) as real
  {
    PairMaskSumCounts(mask, i, j);
  }

  /** The divisor of (i, j) equals the divisor of (j, i). */
  lemma DivisorSymmetric(mask: Matrix, i: nat, j: nat)
    requires HasResidue(mask, i) && HasResidue(mask, j)
    ensures Divisor(mask, i, j) == Divisor(mask, j, i)
  {
    assert PairMaskTerms(mask, i, j) == PairMaskTerms(mask, j, i);
  }

  /** With every entry valid and at least one row, the divisor is the row count S. */
  lemma DivisorAllValid(mask: Matrix, i: nat, j: nat)
    requires HasResidue(mask, i) && HasResidue(mask, j)
    requires IsConstantMask(mask, 1.0) && |mask| >= 1
    ensures Divisor(mask, i, j) == |mask| as real
  {
    CountAllValid(mask, i, j);
    PairMaskSumCounts(mask, i, j);
  }

  lemma {:induction false} CountAllValid(mask: Matrix, i: nat, j: nat)
    requires HasResidue(mask, i) && HasResidue(mask, j) && IsConstantMask(mask, 1.0)
    ensures ValidPairCount(mask, i, j) == |mask|
  {
    if |mask| > 0 {
      CountAllValid(mask[1..], i, j);
    }
  }

  /** With every entry invalid, the pair-mask sum is 0 and the divisor is 1. */
  lemma DivisorAllInvalid(mask: Matrix, i: nat, j: nat)
    requires HasResidue(mask, i) && HasResidue(mask, j) && IsConstantMask(mask, 0.0)
    ensures PairMaskSum(mask, i, j) == 0.0
    ensures Divisor(mask, i, j) == 1.0
  {
    SumOfZeros(PairMaskTerms(mask, i, j));
  }

  /** Re-ordering the sequence rows of the mask leaves every divisor unchanged. */
  lemma DivisorPermutationInvariant(mask: Matrix, p: seq<nat>, i: nat, j: nat)
    requires HasResidue(mask, i) && HasResidue(mask, j) && IsPermutation(p, |mask|)
    ensures HasResidue(Permute(mask, p), i) && HasResidue(Permute(mask, p), j)
    ensures Divisor(Permute(mask, p), i, j) == Divisor(mask, i, j)
  {
    var terms := PairMaskTerms(mask, i, j);
    var moved := PairMaskTerms(Permute(mask, p), i, j);
    assert forall s :: 0 <= s < |p| ==> moved[s] == mask[p[s]][i] * mask[p[s]][j] == terms[p[s]];
    assert moved == Permute(terms, p);
    SumPermute(terms, p);
  }
}
