/** Properties of the whole layer that follow from the contraction being a sum
    over sequence rows. */
module LayerProperties {
  import opened Results
  import opened Sums
  import opened Tensors
  import opened PairMask
  import opened Contraction
  import opened OuterProductMean
  import opened ChunkedEquivalence

  /** Masking commutes with re-ordering the sequence rows. */
  lemma ApplyMaskPermute(x: Tensor3, mask: Matrix, n: nat, h: nat, p: seq<nat>)
    requires IsMatrix(mask, |mask|, n) && IsTensor3(x, |mask|, n, h) && IsPermutation(p, |mask|)
    ensures IsMatrix(Permute(mask, p), |mask|, n) && IsTensor3(Permute(x, p), |mask|, n, h)
    ensures ApplyMask(Permute(x, p), Permute(mask, p), n, h) == Permute(ApplyMask(x, mask, n, h), p)
  {
    var lhs := ApplyMask(Permute(x, p), Permute(mask, p), n, h);
    var rhs := Permute(ApplyMask(x, mask, n, h), p);
    forall s, i, c | 0 <= s < |mask| && 0 <= i < n && 0 <= c < h
      ensures lhs[s][i][c] == rhs[s][i][c]
    {
      assert lhs[s][i][c] == x[p[s]][i][c] * mask[p[s]][i];
    }
    TensorExt(lhs, rhs, |mask|, n, h);
  }

  /** Re-ordering the sequence rows of both projections and the mask together
      leaves the dense output unchanged. */
  lemma DensePermutationInvariant(layer: Layer, pa: Tensor3, pb: Tensor3, mask: Matrix, n: nat, p: seq<nat>)
    requires WellShaped(layer, pa, pb, mask, n) && IsPermutation(p, |mask|)
    ensures WellShaped(layer, Permute(pa, p), Permute(pb, p), Permute(mask, p), n)
    ensures DenseForward(layer, Permute(pa, p), Permute(pb, p), Permute(mask, p), n)
      == DenseForward(layer, pa, pb, mask, n)
  {
    var h := layer.hidden;
    ApplyMaskPermute(pa, mask, n, h, p);
    ApplyMaskPermute(pb, mask, n, h, p);
    var a, b := ApplyMask(pa, mask, n, h), ApplyMask(pb, mask, n, h);
    var moved := DenseForward(layer, Permute(pa, p), Permute(pb, p), Permute(mask, p), n);
    var orig := DenseForward(layer, pa, pb, mask, n);
    forall i, j, o | 0 <= i < n && 0 <= j < n && 0 <= o < layer.COut()
      ensures moved[i][j][o] == orig[i][j][o]
    {
      PairZPermutationInvariant(a, b, mask, p, i, j, h);
    }
    TensorExt(moved, orig, n, n, layer.COut());
  }

  /** Re-ordering the sequence rows leaves the forward pass unchanged in every
      mode, chunked or dense, including its errors. */
  lemma ForwardPermutationInvariant(layer: Layer, training: bool, pa: Tensor3, pb: Tensor3, mask: Matrix, n: nat, p: seq<nat>)
    requires WellShaped(layer, pa, pb, mask, n) && IsPermutation(p, |mask|)
    ensures WellShaped(layer, Permute(pa, p), Permute(pb, p), Permute(mask, p), n)
    ensures Forward(layer, training, Permute(pa, p), Permute(pb, p), Permute(mask, p), n)
      == Forward(layer, training, pa, pb, mask, n)
  {
    DensePermutationInvariant(layer, pa, pb, mask, n, p);
    var qa, qb, qm := Permute(pa, p), Permute(pb, p), Permute(mask, p);
    var moved := Forward(layer, training, qa, qb, qm, n);
    var orig := Forward(layer, training, pa, pb, mask, n);
    if moved.Success? {
      ForwardUpToBias(layer, training, qa, qb, qm, n);
      ForwardUpToBias(layer, training, pa, pb, mask, n);
      var dense := DenseForward(layer, pa, pb, mask, n);
      assert DenseForward(layer, qa, qb, qm, n) == dense;
      forall i, j, o | 0 <= i < n && 0 <= j < n && 0 <= o < layer.COut()
        ensures moved.value[i][j][o] == orig.value[i][j][o]
      {
        var shift := if layer.chunkSize.Some? && !training then layer.bias[o] else 0.0;
        assert orig.Success?;
        assert moved.value[i][j][o] == DenseForward(layer, qa, qb, qm, n)[i][j][o] - shift;
        assert orig.value[i][j][o] == dense[i][j][o] - shift;
      }
      TensorExt(moved.value, orig.value, n, n, layer.COut());
    }
  }

  /** A dot product against all zeros is zero. */
  lemma DotWithZeros(u: seq<real>, z: seq<real>)
    requires |u| == |z| && forall k :: 0 <= k < |z| ==> z[k] == 0.0
    ensures Dot(u, z) == 0.0
  {
    SumOfZeros(Products(u, z));
  }

  /** With every mask entry invalid, every divisor is 1, every pair value is
      zero, and the dense output at every residue pair is just the bias. */
  lemma DenseAllInvalid(layer: Layer, pa: Tensor3, pb: Tensor3, mask: Matrix, n: nat)
    requires WellShaped(layer, pa, pb, mask, n) && IsConstantMask(mask, 0.0)
    ensures forall i, j :: 0 <= i < n && 0 <= j < n ==> Divisor(mask, i, j) == 1.0
    ensures var h := layer.hidden;
      forall i, j, k :: 0 <= i < n && 0 <= j < n && 0 <= k < h * h ==>
        PairZ(ApplyMask(pa, mask, n, h), ApplyMask(pb, mask, n, h), mask, i, j, h)[k] == 0.0
    ensures forall i, j :: 0 <= i < n && 0 <= j < n ==> DenseForward(layer, pa, pb, mask, n)[i][j] == layer.bias
  {
    var h := layer.hidden;
    var a, b := ApplyMask(pa, mask, n, h), ApplyMask(pb, mask, n, h);
    var out := DenseForward(layer, pa, pb, mask, n);
    forall i, j | 0 <= i < n && 0 <= j < n
      ensures Divisor(mask, i, j) == 1.0
      ensures forall k :: 0 <= k < h * h ==> PairZ(a, b, mask, i, j, h)[k] == 0.0
      ensures out[i][j] == layer.bias
    {
      DivisorAllInvalid(mask, i, j);
      PairZZeroWhenLeftMasked(a, b, mask, i, j, h);
      var z := PairZ(a, b, mask, i, j, h);
      forall o | 0 <= o < layer.COut()
        ensures out[i][j][o] == layer.bias[o]
      {
        DotWithZeros(layer.weight[o], z);
      }
    }
  }
}
