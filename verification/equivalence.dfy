/** The chunked inference path against the dense path: the chunked output is the
    dense output minus the projection bias, and a corrected chunked path that
    adds the bias once agrees with the dense path exactly. */
module ChunkedEquivalence {
  import opened Results
  import opened Sums
  import opened Tensors
  import opened PairMask
  import opened Chunking
  import opened Contraction
  import opened OuterProductMean

  /** The bias-free dense projection restricted to the first `m` flattened
      positions: the running total of the chunked loop once its chunks have
      covered exactly those positions. */
  function ProjectedPrefix(layer: Layer, a: Tensor3, b: Tensor3, mask: Matrix, n: nat, m: nat): (r: Tensor3)
    requires WellShaped(layer, a, b, mask, n) && m <= layer.hidden * layer.hidden
    ensures IsTensor3(r, n, n, layer.COut())
  {
    var h := layer.hidden;
    seq(n, i requires 0 <= i < n =>
      seq(n, j requires 0 <= j < n =>
        var z := PairZ(a, b, mask, i, j, h);
        seq(layer.COut(), o requires 0 <= o < layer.COut() => Dot(layer.weight[o][..m], z[..m]))))
  }

  /** Entry (i, j, o) of one chunk's contribution is the dot product of the
      weight block and the pair-value block of that chunk. */
  lemma ContributionEntry(layer: Layer, a: Tensor3, b: Tensor3, mask: Matrix, n: nat, cs: nat, start: nat,
                          i: nat, j: nat, o: nat)
    requires WellShaped(layer, a, b, mask, n) && cs > 0 && start < layer.hidden
    requires i < n && j < n && o < layer.COut()
    ensures var h := layer.hidden;
      var ch := ChunkAt(start, h, cs);
      && ch.lo * h <= ch.hi * h <= h * h
      && ChunkContribution(layer, a, b, mask, n, cs, start)[i][j][o]
         == Dot(layer.weight[o][ch.lo * h..ch.hi * h], PairZ(a, b, mask, i, j, h)[ch.lo * h..ch.hi * h])
  {
    var h := layer.hidden;
    var ch := ChunkAt(start, h, cs);
    var row := layer.weight[o];
    assert |row| == h * h;
    WeightSliceBounds(row, h, cs, start);
    ChunkZIsBlock(a, b, mask, n, h, ch, i, j);
    SlicedWeightShape(layer, cs, start);
    var w := SliceColumns(layer.weight, start * h, (start + cs) * h);
    assert w[o] == row[ch.lo * h..ch.hi * h];
  }

  /** Adding one chunk's contribution extends the covered prefix from lo*h to hi*h. */
  lemma ChunkStep(layer: Layer, a: Tensor3, b: Tensor3, mask: Matrix, n: nat, cs: nat, start: nat,
                  i: nat, j: nat, o: nat)
    requires WellShaped(layer, a, b, mask, n) && cs > 0 && start < layer.hidden
    requires i < n && j < n && o < layer.COut()
    ensures var h := layer.hidden;
      var ch := ChunkAt(start, h, cs);
      && ch.lo * h <= ch.hi * h <= h * h
      && ProjectedPrefix(layer, a, b, mask, n, ch.hi * h)[i][j][o]
         == ProjectedPrefix(layer, a, b, mask, n, ch.lo * h)[i][j][o]
            + ChunkContribution(layer, a, b, mask, n, cs, start)[i][j][o]
  {
    var h := layer.hidden;
    var ch := ChunkAt(start, h, cs);
    ContributionEntry(layer, a, b, mask, n, cs, start, i, j, o);
    var z := PairZ(a, b, mask, i, j, h);
    var row := layer.weight[o];
    assert |row| == h * h;
    DotPrefixExtend(row, z, ch.lo * h, ch.hi * h);
  }

  /** After the chunk at `start` the running total covers [0, hi*h). */
  lemma StepTensor(layer: Layer, a: Tensor3, b: Tensor3, mask: Matrix, n: nat, cs: nat, start: nat)
    requires WellShaped(layer, a, b, mask, n) && cs > 0 && start < layer.hidden
    ensures var h := layer.hidden;
      var ch := ChunkAt(start, h, cs);
      && ch.lo * h <= ch.hi * h <= h * h
      && AddTensor(ProjectedPrefix(layer, a, b, mask, n, ch.lo * h),
                   ChunkContribution(layer, a, b, mask, n, cs, start), n, n, layer.COut())
         == ProjectedPrefix(layer, a, b, mask, n, ch.hi * h)
  {
    var h := layer.hidden;
    var ch := ChunkAt(start, h, cs);
    ChunkBlockFits(h, cs, start);
    var before := ProjectedPrefix(layer, a, b, mask, n, ch.lo * h);
    var after := ProjectedPrefix(layer, a, b, mask, n, ch.hi * h);
    var contrib := ChunkContribution(layer, a, b, mask, n, cs, start);
    var sum := AddTensor(before, contrib, n, n, layer.COut());
    forall i, j, o | 0 <= i < n && 0 <= j < n && 0 <= o < layer.COut()
      ensures sum[i][j][o] == after[i][j][o]
    {
      ChunkStep(layer, a, b, mask, n, cs, start, i, j, o);
    }
    TensorExt(sum, after, n, n, layer.COut());
  }

  /** The first chunk's contribution alone is the running total over [0, hi*h). */
  lemma FirstChunkTensor(layer: Layer, a: Tensor3, b: Tensor3, mask: Matrix, n: nat, cs: nat)
    requires WellShaped(layer, a, b, mask, n) && cs > 0 && 0 < layer.hidden
    ensures var h := layer.hidden;
      && ChunkAt(0, h, cs).hi * h <= h * h
      && ChunkContribution(layer, a, b, mask, n, cs, 0)
         == ProjectedPrefix(layer, a, b, mask, n, ChunkAt(0, h, cs).hi * h)
  {
    var h := layer.hidden;
    var ch := ChunkAt(0, h, cs);
    ChunkBlockFits(h, cs, 0);
    var empty := ProjectedPrefix(layer, a, b, mask, n, 0);
    var after := ProjectedPrefix(layer, a, b, mask, n, ch.hi * h);
    var contrib := ChunkContribution(layer, a, b, mask, n, cs, 0);
    forall i, j, o | 0 <= i < n && 0 <= j < n && 0 <= o < layer.COut()
      ensures contrib[i][j][o] == after[i][j][o]
    {
      ChunkStep(layer, a, b, mask, n, cs, 0, i, j, o);
      assert ch.lo * h == 0;
      assert empty[i][j][o] == Dot([], []) == 0.0;
    }
    TensorExt(contrib, after, n, n, layer.COut());
  }

  /** Once the output variable is bound to the running total at a positive
      chunk start, and the residues make every reshape well defined, the rest of the loop completes the bias-free dense projection. */
  lemma {:induction false} RunChunksFrom(layer: Layer, a: Tensor3, b: Tensor3, mask: Matrix, n: nat, cs: nat,
                                         start: nat, t: Tensor3)
    requires WellShaped(layer, a, b, mask, n) && cs > 0 && start > 0 && ReshapeInfersWidth(n)
    requires Min(start, layer.hidden) * layer.hidden <= layer.hidden * layer.hidden
    requires t == ProjectedPrefix(layer, a, b, mask, n, Min(start, layer.hidden) * layer.hidden)
    ensures var starts := PyRange(start, layer.hidden, cs);
      && (forall k :: 0 <= k < |starts| ==> starts[k] < layer.hidden)
      && RunChunks(layer, a, b, mask, n, cs, starts, Some(t))
         == Success(ProjectedPrefix(layer, a, b, mask, n, layer.hidden * layer.hidden))
    decreases layer.hidden - start
  {
    var h := layer.hidden;
    var starts := PyRange(start, h, cs);
    PyRangeClosedForm(start, h, cs);
    if start < h {
      var ch := ChunkAt(start, h, cs);
      StepTensor(layer, a, b, mask, n, cs, start);
      var next := AddTensor(t, ChunkContribution(layer, a, b, mask, n, cs, start), n, n, layer.COut());
      assert starts[1..] == PyRange(start + cs, h, cs);
      assert Min(start + cs, h) == ch.hi;
      RunChunksFrom(layer, a, b, mask, n, cs, start + cs, next);
    }
  }

  /** Entry (i, j, o) of the dense output is the full bias-free projection plus bias[o]. */
  lemma DenseEntry(layer: Layer, pa: Tensor3, pb: Tensor3, mask: Matrix, n: nat, i: nat, j: nat, o: nat)
    requires WellShaped(layer, pa, pb, mask, n) && i < n && j < n && o < layer.COut()
    ensures var h := layer.hidden;
      var a := ApplyMask(pa, mask, n, h);
      var b := ApplyMask(pb, mask, n, h);
      DenseForward(layer, pa, pb, mask, n)[i][j][o]
        == ProjectedPrefix(layer, a, b, mask, n, h * h)[i][j][o] + layer.bias[o]
  {
    var h := layer.hidden;
    var a := ApplyMask(pa, mask, n, h);
    var b := ApplyMask(pb, mask, n, h);
    var z := PairZ(a, b, mask, i, j, h);
    var row := layer.weight[o];
    assert |row| == h * h;
    assert row[..h * h] == row && z[..h * h] == z;
  }

  /** The chunked inference path computes the dense output minus the projection
      bias: it never adds `proj_o.bias`. */
  lemma ChunkedIsDenseMinusBias(layer: Layer, pa: Tensor3, pb: Tensor3, mask: Matrix, n: nat)
    requires WellShaped(layer, pa, pb, mask, n) && layer.chunkSize.Some?
    ensures var r := ChunkedForward(layer, pa, pb, mask, n);
      r.Success? ==>
        forall i, j, o :: 0 <= i < n && 0 <= j < n && 0 <= o < layer.COut() ==>
          r.value[i][j][o] == DenseForward(layer, pa, pb, mask, n)[i][j][o] - layer.bias[o]
  {
    var r := ChunkedForward(layer, pa, pb, mask, n);
    if r.Success? {
      var cs: nat := layer.chunkSize.value;
      var h := layer.hidden;
      var a := ApplyMask(pa, mask, n, h);
      var b := ApplyMask(pb, mask, n, h);
      var starts := PyRange(0, h, cs);
      PyRangeClosedForm(0, h, cs);
      FirstChunkTensor(layer, a, b, mask, n, cs);
      var first := ChunkContribution(layer, a, b, mask, n, cs, 0);
      assert starts[1..] == PyRange(cs, h, cs);
      assert Min(cs, h) == ChunkAt(0, h, cs).hi;
      RunChunksFrom(layer, a, b, mask, n, cs, cs, first);
      assert r == RunChunks(layer, a, b, mask, n, cs, starts, None);
      assert r.value == ProjectedPrefix(layer, a, b, mask, n, h * h);
      forall i, j, o | 0 <= i < n && 0 <= j < n && 0 <= o < layer.COut()
        ensures r.value[i][j][o] == DenseForward(layer, pa, pb, mask, n)[i][j][o] - layer.bias[o]
      {
        DenseEntry(layer, pa, pb, mask, n, i, j, o);
      }
    }
  }

  /** The chunked path disagrees with the dense path at every output channel
      whose bias is non-zero. */
  lemma ChunkedOmitsBias(layer: Layer, pa: Tensor3, pb: Tensor3, mask: Matrix, n: nat, i: nat, j: nat, o: nat)
    requires WellShaped(layer, pa, pb, mask, n) && layer.chunkSize.Some?
    requires ChunkedForward(layer, pa, pb, mask, n).Success?
    requires i < n && j < n && o < layer.COut() && layer.bias[o] != 0.0
    ensures ChunkedForward(layer, pa, pb, mask, n).value[i][j][o] != DenseForward(layer, pa, pb, mask, n)[i][j][o]
  {
    ChunkedIsDenseMinusBias(layer, pa, pb, mask, n);
  }

  /** A concrete input on which the chunked and dense paths differ: one sequence
      row, one residue, hidden width 1, chunk size 1, zero weight, bias 1. The
      chunked path returns 0 where the dense path returns 1. */
  lemma ChunkedOmitsBiasExample()
    ensures var layer := Layer(1, Some(1), [[0.0]], [1.0]);
      && WellShaped(layer, [[[2.0]]], [[[3.0]]], [[1.0]], 1)
      && ChunkedForward(layer, [[[2.0]]], [[[3.0]]], [[1.0]], 1).Success?
      && ChunkedForward(layer, [[[2.0]]], [[[3.0]]], [[1.0]], 1).value[0][0][0] == 0.0
      && DenseForward(layer, [[[2.0]]], [[[3.0]]], [[1.0]], 1)[0][0][0] == 1.0
  {
    var layer := Layer(1, Some(1), [[0.0]], [1.0]);
    var pa, pb, mask := [[[2.0]]], [[[3.0]]], [[1.0]];
    assert WellShaped(layer, pa, pb, mask, 1);
    ChunkedIsDenseMinusBias(layer, pa, pb, mask, 1);
    var z := PairZ(ApplyMask(pa, mask, 1, 1), ApplyMask(pb, mask, 1, 1), mask, 0, 0, 1);
    assert Dot([0.0], z) == 0.0 * z[0] + 0.0;
    assert DenseForward(layer, pa, pb, mask, 1)[0][0][0] == Dot([0.0], z) + 1.0;
  }

  /** Adds bias[o] to every entry (i, j, o) of an n x n x c_out tensor. */
  function AddBias(t: Tensor3, bias: seq<real>, n: nat): (r: Tensor3)
    requires IsTensor3(t, n, n, |bias|)
    ensures IsTensor3(r, n, n, |bias|)
    ensures forall i, j, o :: 0 <= i < n && 0 <= j < n && 0 <= o < |bias| ==> r[i][j][o] - bias[o] == t[i][j][o]
  {
    seq(n, i requires 0 <= i < n =>
      seq(n, j requires 0 <= j < n =>
        seq(|bias|, o requires 0 <= o < |bias| => t[i][j][o] + bias[o])))
  }

  /** The chunked path with the projection bias applied once, after the loop:
      it fails exactly when the as-written chunked path fails and otherwise
      returns the dense output. */
  function ChunkedForwardBiasOnce(layer: Layer, pa: Tensor3, pb: Tensor3, mask: Matrix, n: nat): (r: Result<Tensor3, ForwardError>)
    requires WellShaped(layer, pa, pb, mask, n) && layer.chunkSize.Some?
    ensures r.Success? <==> layer.chunkSize.value > 0 && layer.hidden > 0 && ReshapeInfersWidth(n)
    ensures r.Failure? ==> r.error == ChunkedError(layer, n)
    ensures r.Success? ==> r.value == DenseForward(layer, pa, pb, mask, n)
  {
    ChunkedIsDenseMinusBias(layer, pa, pb, mask, n);
    match ChunkedForward(layer, pa, pb, mask, n)
    case Failure(e) => Failure(e)
    case Success(t) =>
      var fixed := AddBias(t, layer.bias, n);
      TensorExt(fixed, DenseForward(layer, pa, pb, mask, n), n, n, layer.COut());
      Success(fixed)
  }

  /** The forward pass with the corrected chunked path: its result does not
      depend on the mode, it is the dense output whenever it succeeds. */
  function ForwardBiasOnce(layer: Layer, training: bool, pa: Tensor3, pb: Tensor3, mask: Matrix, n: nat): (r: Result<Tensor3, ForwardError>)
    requires WellShaped(layer, pa, pb, mask, n)
    ensures r.Success? ==> r.value == DenseForward(layer, pa, pb, mask, n)
    ensures r.Failure? <==>
      n == 0 || (!training && layer.chunkSize.Some? && (layer.chunkSize.value <= 0 || layer.hidden == 0))
    ensures r.Failure? ==>
      r.error == (if !training && layer.chunkSize.Some? then ChunkedError(layer, n) else AmbiguousReshape)
  {
    if layer.chunkSize.Some? && !training then ChunkedForwardBiasOnce(layer, pa, pb, mask, n)
    else DensePath(layer, pa, pb, mask, n)
  }

  /** The as-written forward pass is the dense output, less the bias when the
      chunked path runs. */
  lemma ForwardUpToBias(layer: Layer, training: bool, pa: Tensor3, pb: Tensor3, mask: Matrix, n: nat)
    requires WellShaped(layer, pa, pb, mask, n)
    ensures var r := Forward(layer, training, pa, pb, mask, n);
      var chunked := layer.chunkSize.Some? && !training;
      r.Success? ==>
        forall i, j, o :: 0 <= i < n && 0 <= j < n && 0 <= o < layer.COut() ==>
          r.value[i][j][o] == DenseForward(layer, pa, pb, mask, n)[i][j][o] - (if chunked then layer.bias[o] else 0.0)
  {
    if layer.chunkSize.Some? && !training {
      ChunkedIsDenseMinusBias(layer, pa, pb, mask, n);
    }
  }

  /** While the bias is zero (as at initialisation) both paths of the
      as-written forward pass return the dense output. */
  lemma ForwardAtZeroBias(layer: Layer, training: bool, pa: Tensor3, pb: Tensor3, mask: Matrix, n: nat)
    requires WellShaped(layer, pa, pb, mask, n)
    requires forall o :: 0 <= o < |layer.bias| ==> layer.bias[o] == 0.0
    ensures var r := Forward(layer, training, pa, pb, mask, n);
      r.Success? ==> r.value == DenseForward(layer, pa, pb, mask, n)
  {
    var r := Forward(layer, training, pa, pb, mask, n);
    if r.Success? {
      ForwardUpToBias(layer, training, pa, pb, mask, n);
      TensorExt(r.value, DenseForward(layer, pa, pb, mask, n), n, n, layer.COut());
    }
  }
}
