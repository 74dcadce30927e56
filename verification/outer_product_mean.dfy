/** The outer-product-mean layer for one batch: the dense forward pass, the
    chunked inference pass, and the relation between them. */
module OuterProductMean {
  import opened Results
  import opened Sums
  import opened Tensors
  import opened PairMask
  import opened Chunking
  import opened Contraction

  /** The layer's configuration and its output projection `proj_o`
      (weight of shape c_out x hidden^2, bias of length c_out). */
  datatype Layer = Layer(hidden: nat, chunkSize: Option<int>, weight: Matrix, bias: seq<real>)
  {
    function COut(): nat
    {
      |bias|
    }

    predicate Valid()
    {
      IsMatrix(weight, |bias|, hidden * hidden)
    }
  }

  /** Errors the forward pass raises: `range` with step 0, a chunked loop that
      never runs and leaves the output variable unbound, or a `reshape(..., -1)`
      whose -1 cannot be inferred because the other dimensions multiply to 0. */
  datatype ForwardError = ZeroChunkStep | OutputUnbound | AmbiguousReshape

  /** `z.reshape(*z.shape[:3], -1)` infers the flattened width as the element
      count divided by the product of the kept dimensions (1 x n x n for one
      batch); torch refuses when that product is 0, even if H is 0. */
  predicate ReshapeInfersWidth(n: nat)
  {
    n > 0
  }

  /** Two S x n x hidden tensors (the projections `pa`, `pb`, or their masked
      versions `a`, `b`) and the S x n mask agree in shape with the layer. */
  predicate WellShaped(layer: Layer, pa: Tensor3, pb: Tensor3, mask: Matrix, n: nat)
  {
    && layer.Valid()
    && IsMatrix(mask, |mask|, n)
    && IsTensor3(pa, |mask|, n, layer.hidden)
    && IsTensor3(pb, |mask|, n, layer.hidden)
  }

  /** The affine output projection `proj_o`: the bias-free projection plus the bias. */
  function Project(w: Matrix, bias: seq<real>, z: seq<real>): (r: seq<real>)
    requires IsMatrix(w, |bias|, |z|)
    ensures |r| == |bias|
    ensures forall o :: 0 <= o < |bias| ==> r[o] - bias[o] == MatVec(w, z, |bias|)[o]
  {
    seq(|bias|, o requires 0 <= o < |bias| => Dot(w[o], z) + bias[o])
  }

  /** `z @ w.T` for a weight of `cout` rows: the projection without bias. */
  function MatVec(w: Matrix, z: seq<real>, cout: nat): (r: seq<real>)
    requires IsMatrix(w, cout, |z|)
    ensures |r| == cout
  {
    seq(cout, o requires 0 <= o < cout => Dot(w[o], z))
  }

  /** `w[:, from:to]`: every row sliced the way Python slices it. */
  function SliceColumns(w: Matrix, from: nat, to: nat): (r: Matrix)
    ensures |r| == |w|
    ensures forall o :: 0 <= o < |w| && from <= to <= |w[o]| ==> r[o] == w[o][from..to]
    ensures forall o :: 0 <= o < |w| && from <= |w[o]| <= to ==> r[o] == w[o][from..]
  {
    seq(|w|, o requires 0 <= o < |w| => PySlice(w[o], from, to))
  }

  /** The weight columns a chunk starting at `start` uses have the width of the
      chunk's flattened partial value. */
  lemma SlicedWeightShape(layer: Layer, cs: nat, start: nat)
    requires layer.Valid() && cs > 0 && start < layer.hidden
    ensures var ch := ChunkAt(start, layer.hidden, cs);
      && ch.lo < ch.hi
      && IsMatrix(SliceColumns(layer.weight, start * layer.hidden, (start + cs) * layer.hidden),
                  layer.COut(), (ch.hi - ch.lo) * layer.hidden)
  {
    var h := layer.hidden;
    var ch := ChunkAt(start, h, cs);
    var width := (ch.hi - ch.lo) * h;
    var from, to := start * h, (start + cs) * h;
    var w := SliceColumns(layer.weight, from, to);
    forall o | 0 <= o < layer.COut()
      ensures |w[o]| == width
    {
      var row := layer.weight[o];
      assert |row| == h * h;
      WeightSliceBounds(row, h, cs, start);
      assert w[o] == PySlice(row, from, to);
    }
  }

  /** The dense path: mask the projections, contract, divide, project. */
  function DenseForward(layer: Layer, pa: Tensor3, pb: Tensor3, mask: Matrix, n: nat): (r: Tensor3)
    requires WellShaped(layer, pa, pb, mask, n)
    ensures IsTensor3(r, n, n, layer.COut())
  {
    var h := layer.hidden;
    var a := ApplyMask(pa, mask, n, h);
    var b := ApplyMask(pb, mask, n, h);
    seq(n, i requires 0 <= i < n =>
      seq(n, j requires 0 <= j < n =>
        Project(layer.weight, layer.bias, PairZ(a, b, mask, i, j, h))))
  }

  /** One chunk's partial output: the chunk's partial value times the matching
      weight columns, without bias. */
  function ChunkContribution(layer: Layer, a: Tensor3, b: Tensor3, mask: Matrix, n: nat, cs: nat, start: nat): (r: Tensor3)
    requires WellShaped(layer, a, b, mask, n) && cs > 0 && start < layer.hidden
    ensures IsTensor3(r, n, n, layer.COut())
  {
    var h := layer.hidden;
    var ch := ChunkAt(start, h, cs);
    var w := SliceColumns(layer.weight, start * h, (start + cs) * h);
    SlicedWeightShape(layer, cs, start);
    assert ch.lo < ch.hi <= h;
    assert IsMatrix(w, layer.COut(), (ch.hi - ch.lo) * h);
    seq(n, i requires 0 <= i < n =>
      seq(n, j requires 0 <= j < n =>
        MatVec(w, ChunkZ(a, b, mask, n, h, ch, i, j), layer.COut())))
  }

  /** The chunked loop over the chunk starts `starts`, with `zOut` the output
      variable (unbound or bound): every chunk first reshapes its partial value,
      then the chunk at start 0 assigns the output and any other chunk adds to
      it; returning it unbound is an error. */
  function RunChunks(layer: Layer, a: Tensor3, b: Tensor3, mask: Matrix, n: nat, cs: nat,
                     starts: seq<nat>, zOut: Option<Tensor3>): (r: Result<Tensor3, ForwardError>)
    requires WellShaped(layer, a, b, mask, n) && cs > 0
    requires forall k :: 0 <= k < |starts| ==> starts[k] < layer.hidden
    requires zOut.Some? ==> IsTensor3(zOut.value, n, n, layer.COut())
    ensures r.Success? ==> IsTensor3(r.value, n, n, layer.COut())
    ensures r.Success? <==>
      (zOut.Some? || (|starts| > 0 && starts[0] == 0)) && (|starts| == 0 || ReshapeInfersWidth(n))
    ensures r.Failure? ==>
      r.error == (if |starts| > 0 && !ReshapeInfersWidth(n) then AmbiguousReshape else OutputUnbound)
    decreases |starts|
  {
    if |starts| == 0 then
      match zOut
      case None => Failure(OutputUnbound)
      case Some(t) => Success(t)
    else if !ReshapeInfersWidth(n) then Failure(AmbiguousReshape)
    else
      var i := starts[0];
      var contrib := ChunkContribution(layer, a, b, mask, n, cs, i);
      if i == 0 then
        RunChunks(layer, a, b, mask, n, cs, starts[1..], Some(contrib))
      else
        match zOut
        case None => Failure(OutputUnbound)
        case Some(t) =>
          RunChunks(layer, a, b, mask, n, cs, starts[1..], Some(AddTensor(t, contrib, n, n, layer.COut())))
  }

  /** The chunked inference path. A zero chunk size makes `range` fail; a negative
      one or a zero hidden width gives an empty `range(0, hidden, cs)`, so the loop
      never runs; with no residues the first chunk's reshape fails. */
  function ChunkedForward(layer: Layer, pa: Tensor3, pb: Tensor3, mask: Matrix, n: nat): (r: Result<Tensor3, ForwardError>)
    requires WellShaped(layer, pa, pb, mask, n) && layer.chunkSize.Some?
    ensures r.Success? ==> IsTensor3(r.value, n, n, layer.COut())
    ensures r.Success? <==> layer.chunkSize.value > 0 && layer.hidden > 0 && ReshapeInfersWidth(n)
    ensures r.Failure? ==> r.error == ChunkedError(layer, n)
  {
    var cs := layer.chunkSize.value;
    var h := layer.hidden;
    if cs == 0 then Failure(ZeroChunkStep)
    else if cs < 0 then Failure(OutputUnbound)
    else
      var a := ApplyMask(pa, mask, n, h);
      var b := ApplyMask(pb, mask, n, h);
      var starts := PyRange(0, h, cs);
      PyRangeClosedForm(0, h, cs);
      RunChunks(layer, a, b, mask, n, cs, starts, None)
  }

  /** The error the chunked path raises, checked in the order the code meets them. */
  function ChunkedError(layer: Layer, n: nat): ForwardError
    requires layer.chunkSize.Some?
  {
    var cs := layer.chunkSize.value;
    if cs == 0 then ZeroChunkStep
    else if cs < 0 || layer.hidden == 0 then OutputUnbound
    else AmbiguousReshape
  }

  /** The dense path with its one failure: the reshape raises when there are no
      residues; otherwise it returns the dense output. */
  function DensePath(layer: Layer, pa: Tensor3, pb: Tensor3, mask: Matrix, n: nat): (r: Result<Tensor3, ForwardError>)
    requires WellShaped(layer, pa, pb, mask, n)
    ensures r.Success? <==> n > 0
    ensures r.Failure? ==> r.error == AmbiguousReshape
    ensures r.Success? ==> IsTensor3(r.value, n, n, layer.COut())
  {
    if !ReshapeInfersWidth(n) then Failure(AmbiguousReshape)
    else Success(DenseForward(layer, pa, pb, mask, n))
  }

  /** The layer's forward pass: the chunked path runs only when a chunk size is
      configured and the layer is not training; otherwise the dense path runs. */
  function Forward(layer: Layer, training: bool, pa: Tensor3, pb: Tensor3, mask: Matrix, n: nat): (r: Result<Tensor3, ForwardError>)
    requires WellShaped(layer, pa, pb, mask, n)
    ensures r.Success? ==> IsTensor3(r.value, n, n, layer.COut())
    ensures r.Failure? <==>
      n == 0 || (!training && layer.chunkSize.Some? && (layer.chunkSize.value <= 0 || layer.hidden == 0))
    ensures r.Failure? ==>
      r.error == (if !training && layer.chunkSize.Some? then ChunkedError(layer, n) else AmbiguousReshape)
  {
    if layer.chunkSize.Some? && !training then ChunkedForward(layer, pa, pb, mask, n)
    else DensePath(layer, pa, pb, mask, n)
  }
}
