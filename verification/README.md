# Outer product mean, modelled in Dafny

This project models the forward pass of the `OuterProductMean` layer in Boltz
(`src/boltz/model/layers/outer_product_mean.py`) for a single batch, over exact
real arithmetic. The layer turns per-sequence, per-residue hidden vectors into
per-residue-pair features:

- **Masking.** The projected hidden tensors `a` and `b` (S sequence rows x N
  residues x H hidden channels) are multiplied by the validity mask, which is
  broadcast over the channel axis.
- **Pair count.** For each residue pair (i, j), the pairwise mask
  `mask[s][i] * mask[s][j]` is summed over the sequence rows and clamped below
  at 1. The result is the divisor.
- **Dense path.** `z[i,j,c,d] = sum_s a[s][i][c] * b[s][j][d]` is flattened
  row-major (`c*H + d`), divided by the divisor and passed through `proj_o`
  (weight `c_out x H^2` plus bias).
- **Chunked path.** This path runs at inference when `chunk_size` is set. For
  every start `i` in `range(0, H, chunk_size)`, it contracts the channels
  `a[..., i:i+chunk_size]` against all of `b`. It divides by the same divisor
  and multiplies by the weight columns `[i*H : (i+chunk_size)*H]`. The chunk at
  `i == 0` assigns the output; later chunks add to it.

Modules, one per file:

- `Sums` (`sums.dfy`): finite sums, dot products, splitting and re-ordering lemmas.
- `Tensors` (`tensors.dfy`): nested-sequence tensors and the row-major flattening used by `reshape`.
- `Chunking` (`chunking.dfy`): `range`, the chunk schedule, and Python slicing of the weight rows.
- `PairMask` (`pairmask.dfy`): mask application, the pair-mask sum and the clamped divisor.
- `Contraction` (`contraction.dfy`): the einsum, the flattened and divided pair value, and the chunk partial value.
- `OuterProductMean` (`outer_product_mean.dfy`): the layer, the dense and chunked paths, and the mode dispatch.
- `ChunkedEquivalence` (`equivalence.dfy`): chunked equals dense minus bias, and the corrected bias-once path.
- `LayerProperties` (`properties.dfy`): sequence-order invariance and the all-invalid mask.

Each torch operation of the layer has one function:

- `self.proj_a(m) * mask` and `self.proj_b(m) * mask`, lines 58-59: `PairMask.ApplyMask`.
- `mask[:, :, None, :] * mask[:, :, :, None]`, line 62: `PairMask.PairMaskTerms`; its `.sum(dim=1)`, lines 75 and 86: `PairMask.PairMaskSum`.
- `.clamp(min=1)`, lines 75 and 86: `PairMask.Divisor`.
- `torch.einsum("bsic,bsjd->bijcd", ...)`, lines 73 and 84: `Contraction.OuterTerms`, `Contraction.OuterSum` and `Contraction.OuterMatrix`.
- `z.reshape(*z.shape[:3], -1)`, lines 74 and 85: `Tensors.Flatten`.
- `/` by the divisor, lines 75 and 86: `Tensors.DivideAll`.
- `z_out + ...`, line 81: `Tensors.AddTensor`.
- `z.to(m) @ sliced_weight_proj_o.T`, lines 79 and 81: `OuterProductMean.MatVec`.
- `self.proj_o(...)`, line 89: `OuterProductMean.Project`.

The main result is `ChunkedEquivalence.ChunkedIsDenseMinusBias`. Whenever the
chunked path returns a value, that value is the dense output minus
`proj_o.bias`. The two paths agree only while the bias is zero.

The code does not validate `chunk_size` or the number of residues. The model
keeps every outcome the code has, as a `ForwardError` where the code raises:

- A chunk size larger than H gives one chunk.
- A chunk size of 0 makes `range(0, H, 0)` (line 67) raise: `ZeroChunkStep`.
- A negative chunk size, or H = 0, gives an empty loop. `return z_out` (line 82)
  then raises `UnboundLocalError`, because `z_out` was never assigned: `OutputUnbound`.
- With no residues (N = 0), `z.reshape(*z.shape[:3], -1)` (lines 74 and 85) raises:
  torch infers the -1 by dividing by the product of the other dimensions, and refuses
  when that product is 0. This is `AmbiguousReshape`. With N > 0 and H = 0, the
  dense reshape infers width 0 and does not raise.

`ChunkedForward`, `DensePath` and `Forward` state exactly when each error occurs.

The dense path adds `proj_o.bias` once; the chunked path never adds it (see Findings).

## Model

| member | source | states |
|---|---|---|
| PairMask.ApplyMask | src/boltz/model/layers/outer_product_mean.py:54-59 | a hidden vector whose mask entry is 0 becomes the zero vector, and one whose entry is 1 is kept |
| PairMask.ValidPairCount | src/boltz/model/layers/outer_product_mean.py:62 | the number of rows in which both residues are valid never exceeds S |
| PairMask.PairMaskSumCounts | src/boltz/model/layers/outer_product_mean.py:62 | for a 0/1 mask, `PairMaskSum` (the pairwise mask summed over the sequence axis) equals the number of rows where both residues are valid |
| PairMask.Divisor | src/boltz/model/layers/outer_product_mean.py:86 | the clamped divisor is at least 1 (so dividing never fails) and equals the pair-mask sum whenever that sum reaches 1 |
| PairMask.DivisorIsClampedCount | src/boltz/model/layers/outer_product_mean.py:86 | for a 0/1 mask, the divisor is max(1, number of rows where both residues are valid), so it lies between 1 and max(1, S) |
| PairMask.DivisorSymmetric | src/boltz/model/layers/outer_product_mean.py:62 | the divisor of (i, j) equals that of (j, i) |
| PairMask.DivisorAllValid | src/boltz/model/layers/outer_product_mean.py:86 | with an all-ones mask and S >= 1, every divisor is S |
| PairMask.DivisorAllInvalid | src/boltz/model/layers/outer_product_mean.py:86 | with an all-zero mask, the pair-mask sum is 0 and the divisor is 1 |
| PairMask.DivisorPermutationInvariant | src/boltz/model/layers/outer_product_mean.py:86 | re-ordering the mask's sequence rows leaves every divisor unchanged |
| Tensors.FlattenIndex | src/boltz/model/layers/outer_product_mean.py:85 | the reshape puts entry (c, d) at flat position c*H + d |
| Tensors.FlattenRows | src/boltz/model/layers/outer_product_mean.py:74 | flattening channel rows [lo, hi) gives exactly the flat positions [lo*H, hi*H) of the full flattening |
| Contraction.PairZ | src/boltz/model/layers/outer_product_mean.py:84-86 | shape only: the flattened, divided pair value has H*H entries (`PairZRowMajor` and `PairZIsValidMean` give the entries) |
| Contraction.PairZRowMajor | src/boltz/model/layers/outer_product_mean.py:84-86 | flat entry c*H + d of the divided pair value is the sum over sequence rows of a[s][i][c]*b[s][j][d], divided by the divisor |
| Contraction.MaskedOuterSum | src/boltz/model/layers/outer_product_mean.py:84 | with a 0/1 mask, the outer sum of the projections masked at lines 58-59 adds pa[s][i][c]*pb[s][j][d] only over rows where mask[s][i] and mask[s][j] are both 1; every other row contributes 0 |
| Contraction.PairZIsValidMean | src/boltz/model/layers/outer_product_mean.py:84-86 | with a 0/1 mask, flat entry c*H + d of the pair value is the sum of pa[s][i][c]*pb[s][j][d] over the rows where both residues are valid, divided by the number of those rows (by 1 if there are none): a mean over the valid rows |
| Contraction.SliceChannels | src/boltz/model/layers/outer_product_mean.py:68 | the slice keeps every row and residue, has hi - lo channels, and its channel c is channel lo + c of the input |
| Contraction.ChunkZ | src/boltz/model/layers/outer_product_mean.py:73-75 | shape only: a chunk's flattened, divided partial value has (hi - lo)*H entries (`ChunkZIsBlock` gives the entries) |
| Contraction.ChunkZIsBlock | src/boltz/model/layers/outer_product_mean.py:68-75 | a chunk's divided partial value is exactly the block [lo*H, hi*H) of the dense divided pair value, with the same divisor |
| Contraction.OuterSumSymmetric | src/boltz/model/layers/outer_product_mean.py:84 | with a = b, z[i,j,c,d] == z[j,i,d,c] |
| Contraction.PairZSymmetric | src/boltz/model/layers/outer_product_mean.py:84-86 | with a = b, flat entry c*H+d of pair (i, j) equals flat entry d*H+c of pair (j, i) after division |
| Contraction.PairZPermutationInvariant | src/boltz/model/layers/outer_product_mean.py:84-86 | re-ordering the sequence rows of a, b and the mask together leaves the divided pair value unchanged |
| Contraction.PairZZeroWhenLeftMasked | src/boltz/model/layers/outer_product_mean.py:84-86 | if residue i's left vectors are zero in every row, the pair value of (i, j) is all zeros |
| Chunking.PyRange | src/boltz/model/layers/outer_product_mean.py:67 | `range(start, stop, step)` is empty exactly when start >= stop, otherwise starts at start, and every value lies in [start, stop) |
| Chunking.PyRangeClosedForm | src/boltz/model/layers/outer_product_mean.py:67 | `range(start, stop, step)` is start, start+step, ..., stays below stop, and has the length that reaches stop |
| Chunking.ChunkAt | src/boltz/model/layers/outer_product_mean.py:68 | the channels `a[..., i : i + chunk_size]` start at i and end within H; a start i <= H gets exactly min(chunk_size, H - i) channels (so a non-empty chunk when i < H), and a start past H gets none |
| Chunking.Chunks | src/boltz/model/layers/outer_product_mean.py:67-68 | one chunk per loop start, each a non-empty channel range within [0, H) of at most chunk_size channels (`ChunksPartition` gives the full schedule) |
| Chunking.ChunksPartition | src/boltz/model/layers/outer_product_mean.py:67-68 | the chunks start at 0, end at H, are non-empty and contiguous in order, all but the last have chunk_size channels, the last is shorter exactly when chunk_size does not divide H, and channel c lies in chunk k iff k == c / chunk_size |
| Chunking.LastChunk | src/boltz/model/layers/outer_product_mean.py:67-68 | the last chunk ends at H and has H mod chunk_size channels, or chunk_size channels when that remainder is 0 |
| Chunking.PySlice | src/boltz/model/layers/outer_product_mean.py:69-71 | a slice within bounds is exact, one whose end runs past the row stops at the row's end, and one that starts at or past the end, or is reversed, is empty |
| Chunking.WeightSliceAligned | src/boltz/model/layers/outer_product_mean.py:69-71 | the clipped column slice [i*H : (i+chunk_size)*H] is the block [lo*H, hi*H), and that block holds exactly the positions c*H + d with c in the chunk and d < H |
| OuterProductMean.SliceColumns | src/boltz/model/layers/outer_product_mean.py:69-71 | `w[:, from:to]` keeps one row per output channel; each row is exactly the columns [from, to) when those lie within the row, and the columns from `from` to the end when only `to` runs past it |
| OuterProductMean.SlicedWeightShape | src/boltz/model/layers/outer_product_mean.py:69-71 | the chunk is non-empty, and the sliced weight has c_out rows as wide as the chunk's flattened partial value |
| OuterProductMean.Project | src/boltz/model/layers/outer_product_mean.py:89 | `proj_o` has c_out entries, and entry o is the bias-free projection `MatVec` plus bias[o] |
| OuterProductMean.MatVec | src/boltz/model/layers/outer_product_mean.py:79 | shape only: `z @ w.T` has one entry per weight row (`ContributionEntry` gives the entries) |
| OuterProductMean.DenseForward | src/boltz/model/layers/outer_product_mean.py:84-89 | the dense path yields an N x N x c_out tensor |
| OuterProductMean.DensePath | src/boltz/model/layers/outer_product_mean.py:84-90 | the dense path fails, with the reshape error, exactly when there are no residues, and otherwise returns an N x N x c_out tensor |
| OuterProductMean.ChunkContribution | src/boltz/model/layers/outer_product_mean.py:73-81 | shape only: one chunk's partial output is N x N x c_out (`ContributionEntry` gives the entries) |
| OuterProductMean.RunChunks | src/boltz/model/layers/outer_product_mean.py:67-82 | the loop returns a value iff the output was already bound or the first start is 0, and no chunk meets the reshape error (there is a residue, or no chunk runs); otherwise it fails with the reshape error when a chunk runs with no residues, and with the unbound output otherwise; a value has shape N x N x c_out |
| OuterProductMean.ChunkedForward | src/boltz/model/layers/outer_product_mean.py:65-82 | the chunked path succeeds iff chunk_size > 0, H > 0 and N > 0; otherwise it fails with the range error (chunk_size 0), the unbound output (chunk_size < 0 or H = 0) or the reshape error (N = 0); a success has shape N x N x c_out |
| OuterProductMean.Forward | src/boltz/model/layers/outer_product_mean.py:65-90 | the forward pass fails iff N = 0, or it is not training, a chunk size is set, and chunk_size <= 0 or H = 0; the error is the chunked path's when that path runs and the reshape error otherwise; a success has shape N x N x c_out in both paths |
| ChunkedEquivalence.ContributionEntry | src/boltz/model/layers/outer_product_mean.py:73-81 | a chunk's contribution at (i, j, o) is the dot product of weight row o's block and the pair value's block for that chunk |
| ChunkedEquivalence.ChunkStep | src/boltz/model/layers/outer_product_mean.py:81 | adding one chunk's contribution extends the covered prefix of the dense projection from lo*H to hi*H |
| ChunkedEquivalence.FirstChunkTensor | src/boltz/model/layers/outer_product_mean.py:78-79 | the contribution assigned at i == 0 is the dense projection over the first chunk's block |
| ChunkedEquivalence.RunChunksFrom | src/boltz/model/layers/outer_product_mean.py:67-82 | from any positive start, with at least one residue, the rest of the loop completes the bias-free dense projection |
| ChunkedEquivalence.DenseEntry | src/boltz/model/layers/outer_product_mean.py:89 | each dense output entry is the full bias-free projection plus bias[o] |
| ChunkedEquivalence.ChunkedIsDenseMinusBias | src/boltz/model/layers/outer_product_mean.py:65-89 | whenever the chunked path succeeds, every entry equals the dense output minus bias[o] |
| ChunkedEquivalence.ChunkedOmitsBias | src/boltz/model/layers/outer_product_mean.py:79-81 | the chunked and dense outputs differ at every channel o whose bias is non-zero |
| ChunkedEquivalence.ChunkedOmitsBiasExample | src/boltz/model/layers/outer_product_mean.py:79-81 | a concrete one-residue input where the chunked path returns 0 and the dense path returns 1 |
| ChunkedEquivalence.ChunkedForwardBiasOnce | src/boltz/model/layers/outer_product_mean.py:79-82 | the chunked path with the bias added once after the loop fails exactly when the as-written path fails, and otherwise equals the dense output |
| ChunkedEquivalence.ForwardBiasOnce | src/boltz/model/layers/outer_product_mean.py:65-90 | with the corrected chunked path, every successful forward pass returns the dense output, whatever the mode |
| ChunkedEquivalence.ForwardUpToBias | src/boltz/model/layers/outer_product_mean.py:65-90 | the as-written forward pass is the dense output, less the bias exactly when the chunked path runs |
| ChunkedEquivalence.ForwardAtZeroBias | src/boltz/model/layers/outer_product_mean.py:79-89 | while the bias is all zero (as at initialisation), both paths return the dense output |
| LayerProperties.ApplyMaskPermute | src/boltz/model/layers/outer_product_mean.py:58-59 | masking commutes with re-ordering the sequence rows |
| LayerProperties.DensePermutationInvariant | src/boltz/model/layers/outer_product_mean.py:84-89 | re-ordering the sequence rows of a, b and the mask together leaves the dense output unchanged |
| LayerProperties.ForwardPermutationInvariant | src/boltz/model/layers/outer_product_mean.py:65-90 | the same re-ordering leaves the forward pass unchanged in every mode, errors included |
| LayerProperties.DenseAllInvalid | src/boltz/model/layers/outer_product_mean.py:84-89 | with an all-zero mask, every divisor is 1, every pair value is zero, and every output pair is just the bias |

## Left out

- `nn.LayerNorm` and the `proj_a`/`proj_b` linear layers (lines 30-32, 57-59) are learned library transforms. Their outputs `pa` and `pb` are inputs of the model; only the multiplication by the mask is modelled.
- `init.final_init_` (lines 34-35) is not part of this model. A zero bias appears only as the hypothesis of `ChunkedEquivalence.ForwardAtZeroBias`.
- The `.float()` upcast and the `.to(m)` casts (lines 54, 79, 84, 89) are floating-point precision handling. Exact real arithmetic abstracts them away, and with them the rounding differences between chunked and dense accumulation.
- The batch axis is dropped: the model is one batch.
- Torch's shape-mismatch errors are not modelled as an error path. Shape agreement (`WellShaped`) is a precondition. The one shape error consistent shapes can still raise, the zero-residue reshape, is modelled as `AmbiguousReshape`.
- The training flag is a boolean parameter, not `nn.Module` state.
- The mask is a real-valued matrix. The 0/1 hypothesis (`IsBinaryMask`, `IsConstantMask`) is assumed only where a count is claimed.
- OuterProductMean.DenseForward: its contract states only the output shape. Its values are stated by `ChunkedEquivalence.DenseEntry`, `LayerProperties.DenseAllInvalid` and the permutation lemmas.
- Contraction.PairZ: its contract states only the length H*H. Its entries are stated by `Contraction.PairZRowMajor` and `Contraction.PairZIsValidMean`.
- Contraction.ChunkZ: its contract states only the length. Its entries are stated by `Contraction.ChunkZIsBlock`.
- OuterProductMean.MatVec: its contract states only the length. Its entries are stated by `ChunkedEquivalence.ContributionEntry`.
- OuterProductMean.ChunkContribution: its contract states only the shape. Its entries are stated by `ChunkedEquivalence.ContributionEntry` and `ChunkedEquivalence.ChunkStep`.
- Chunking.PyRange: its contract states only the bounds and the first value. The closed form, the step and the length are stated by `Chunking.PyRangeClosedForm`.
- Memory bounding, GPU execution and parallel reduction orders are out of scope, as is any performance rationale.

## Findings

| source | as written | input that shows it | evidently intended | confidence | as-written member | corrected member |
|---|---|---|---|---|---|---|
| src/boltz/model/layers/outer_product_mean.py:79-81 | the chunked path accumulates `z @ W_slice.T` and never adds `proj_o.bias`, while the dense path adds it through `proj_o` | H = 1, chunk_size = 1, one sequence row and residue, weight 0, bias 1: chunked gives 0, dense gives 1 | the chunked output equals the dense `proj_o` output, with the bias added once | medium; not executed | ChunkedEquivalence.ChunkedOmitsBias | ChunkedEquivalence.ChunkedForwardBiasOnce |
