# Flash-attention forward kernel: integer bookkeeping

This project models the integer side of the Triton forward flash-attention
kernel in `examples/flash_attention.py`. That is everything the kernel
computes about *which* data a program instance touches, and *how* it masks
it. Floating-point softmax arithmetic is not part of it.

- **Sequence resolution.** `SequenceIndex.ResolveSequence` gives the query and
  key spans of one batch element. It covers packed (variable-length) mode,
  with cumulative-length tables, and fixed-length mode. In packed mode a
  program whose first row lies beyond the query length returns at once.
- **Head grouping.** `HeadGroup.KvHead` maps a query head to its key/value
  head under grouped-query attention.
- **Tile plan.** `TilePlan` covers `cdiv_fn`, `n_blocks` with its causal
  shrink, `n_extra_tokens`, `masked_blocks` and the causal early exit.
  `TileMath.Rounding` models both roundings of integer `//`. The kernel
  uses `DeviceRounding`, truncation toward zero.
- **Masks.** `Masks` has the boundary mask and the causal mask as the
  inner loop applies them, plus a reference masking, `UniformKeep`, that
  applies every mask to every entry. It also proves the row zeroing after
  normalisation.
- **Inner loop and schedule.** `Schedule.AttnFwdInner` is the inner loop.
  `Schedule.RunPhases` runs the two-phase schedule: full tiles first, then
  masked tiles. `Schedule.AttnFwd` is one program instance.
  - The online-softmax state `(acc, l_i, m_i)` is left abstract: it is a
    type parameter `A`, updated by a caller-supplied `step` once per tile.
  - Each tile hands `step` a `TileInput`:
    - its key offset;
    - its K, V and bias pointers;
    - its dropout counter base;
    - the `BLOCK_M x BLOCK_N` matrix of entries the masks keep.
  - The central result: the two calls of the inner loop feed `step` exactly
    the reference tiles `0 .. n_blocks - 1`, in order, each once, and every
    tile arrives masked as the reference masking would mask it.
- **Dropout counters.** `Dropout` covers the three-step composition of the
  Philox counter offset and its closed form.
- **Addresses.** `SequenceIndex` covers the base offsets of the Q/K/V/O
  block pointers, the packed-tensor stride view the wrapper builds, and the
  disjointness of output addresses.
- **Loads.** `Loads` has `load_fn`'s boundary-check selection and proves
  which loads stay inside their tensors.
- **Host wrapper.** `Launch` covers `check_args`, the padded head width
  (a loop with `break`) and the launch grid.

Two behaviours of the code worth knowing:

- In packed mode a program with `start_m * BLOCK_M > seqlen_q` returns at
  once, before reading the key table (line 243); `ResolveSequence` returns
  `None` there. A program with `start_m * BLOCK_M == seqlen_q` is not
  stopped, and goes on to work on an all-out-of-range tile.
- Under causal masking a row with no allowed key is zeroed by two
  mechanisms:
  - the causal early exit, which stores a zero tile;
  - the post-normalisation zeroing of rows before `seqlen_q - seqlen_k`.

  `Masks.CausalZeroRows` and `Schedule.AttnFwd` prove that these two
  mechanisms clear exactly the rows that have no allowed key.

## Model

| member | source | states |
|---|---|---|
| TileMath.Quot | examples/flash_attention.py:22 | integer `//` under either rounding: floor division brackets x between q*y and q*y+y; truncation differs only for negative x |
| TileMath.CDiv | examples/flash_attention.py:21-22 | `cdiv_fn`: for x >= 0 the result is the least tile count covering x (x <= r*y < x+y); it is non-positive exactly when x is |
| TileMath.CDivOfMultiple | examples/flash_attention.py:21-22 | `cdiv_fn(q*n, n) == q` under both roundings |
| SequenceIndex.ResolveSequence | examples/flash_attention.py:239-252 | packed mode: None exactly when the first row of the tile lies strictly beyond the query length, otherwise the spans are the z-th segments of the two tables; fixed mode: the configured maxima at offset 0 |
| SequenceIndex.PackedTokensDisjoint | examples/flash_attention.py:240-247 | with a monotone table, rows of different batch elements never map to the same token (iff) |
| SequenceIndex.PackedView | examples/flash_attention.py:439-442 | the kernel's 4-D view of a packed tensor has batch stride 0 |
| SequenceIndex.PackedAddress | examples/flash_attention.py:282 | element (row, col) of a packed Q/K/V/O tile is the flat element of token `cu[z] + row`; the batch index enters only through the table |
| SequenceIndex.PackedElementsDisjoint | examples/flash_attention.py:394 | in-range (batch, head, row, dim) elements of a packed output share an address only if they are the same element (iff) |
| SequenceIndex.PackedMatchesPadded | examples/flash_attention.py:282-300 | with equal-length sequences of length L, the packed address of (z, h, row, col) equals the address of the same buffer viewed as a dense (batch, L, heads, dim) tensor (batch stride L*heads*dim, start token 0) |
| SequenceIndex.PackedMatchesFixed | examples/flash_attention.py:239-252 | with equal-length tables (`cu[z] = z*L`) and maxima equal to those lengths, packed and fixed resolution give batch element z the same lengths; packed starts at token z*L, fixed at 0, and only packed mode stops a program whose first row lies beyond L |
| HeadGroup.KvHead | examples/flash_attention.py:272-273 | `off_h_k` is a valid key/value head and the query head lies in its group [kv*G, (kv+1)*G) |
| HeadGroup.GroupOf | examples/flash_attention.py:273 | both branches of the `GROUP_SIZE != 1` conditional give the group containing x |
| HeadGroup.GroupsFill | examples/flash_attention.py:272 | the groups of size HQ // HK exactly fill the query heads |
| HeadGroup.KvHeadPreimage | examples/flash_attention.py:272-273 | a query head reads key/value head kv exactly when it lies in [kv*G, (kv+1)*G) (iff) |
| HeadGroup.KvHeadServesGroup | examples/flash_attention.py:272-273 | key/value head kv serves exactly the query heads [kv*G, (kv+1)*G), a block inside [0, HQ); with any query heads at all, every key/value head serves at least one (the mapping is onto) |
| HeadGroup.EightOverTwo | examples/flash_attention.py:272-273 | with 8 query heads over 2 key/value heads, heads 0-3 use head 0 and heads 4-7 use head 1 |
| TilePlan.NBlocks | examples/flash_attention.py:254-257 | `n_blocks` covers the usable key columns (key length, cut by the causal limit) with under one tile to spare, and is non-positive exactly when none are usable |
| TilePlan.MinCover | examples/flash_attention.py:257 | the minimum of two covering tile counts covers the minimum of the two lengths |
| TilePlan.NBlocksRoundingAgnostic | examples/flash_attention.py:254-258 | the early-exit decision and any positive `n_blocks` are the same under floor and truncating division; the exit happens exactly when there are no keys or the causal limit is <= 0 |
| TilePlan.NExtraTokens | examples/flash_attention.py:275-279 | `n_extra_tokens` is non-zero exactly when the key length is not a positive multiple of BLOCK_N, and then lies in [1, BLOCK_N] |
| TilePlan.MaskedBlocks | examples/flash_attention.py:342-349 | `masked_blocks` lies in [0, n_blocks], and is at least 1 under causal masking or with a ragged key tail |
| TilePlan.PlanFor | examples/flash_attention.py:254-258 | early exit exactly under causal masking with no usable key; otherwise full + masked tiles partition `n_blocks`, which covers the usable keys |
| Masks.FullTilesInBounds | examples/flash_attention.py:349-353 | every key column before `n_full_blocks * BLOCK_N` exists |
| Masks.FullTilesBelowDiagonal | examples/flash_attention.py:342-353 | under causal masking every row of the query tile may see every key column of a full tile |
| Masks.AlignedCausalLimit | examples/flash_attention.py:343-345 | with aligned tile edges the causal key limit is a multiple of BLOCK_N |
| Masks.AlignedTilesExact | examples/flash_attention.py:343-345 | with aligned tile edges the visited tiles end exactly at the usable key limit |
| Masks.FullTilesNeedNoMask | examples/flash_attention.py:352-360 | the first call, which masks nothing, loses nothing: every entry of a full tile is kept by the reference masking |
| Masks.UnmaskedBoundaryInRange | examples/flash_attention.py:105-110 | the boundary mask is skipped on a masked tile only where every key column exists |
| Masks.LastTileAligned | examples/flash_attention.py:275-279 | with no ragged tail the visited tiles end within the key sequence |
| Masks.MaskedTilesMatchUniform | examples/flash_attention.py:105-114 | on every tile of the second call the applied boundary and causal masks keep exactly what the reference masking keeps (iff) |
| Masks.SkippedTilesMasked | examples/flash_attention.py:254-258 | every key column beyond the visited tiles, or every column after an early exit, is removed by the reference masking for every row of the tile |
| Masks.CausalZeroRows | examples/flash_attention.py:383-393 | under causal masking a row is zeroed (early exit or post-normalisation zeroing) exactly when no key is allowed for it |
| Dropout.CounterClosedForm | examples/flash_attention.py:124-125 | the composition of `batch_philox_offset`, `philox_offset` and `dropout_offsets` is the row-major position of the absolute entry, shifted by `base - BLOCK_N` |
| Dropout.CountersDistinct | examples/flash_attention.py:321 | within one length configuration, in-range entries draw the same counter only if they are the same entry (iff) |
| Dropout.VarlenCountersOverlap | examples/flash_attention.py:321 | with packed sequences of different lengths, two batch elements can draw the same counter for different entries |
| Schedule.TileStarts | examples/flash_attention.py:90 | `range(lo, hi, BLOCK_N)`: element i is lo + i*BLOCK_N below hi, and the elements reach hi |
| Schedule.TileStartsOfMultiples | examples/flash_attention.py:351-353 | the range over `[a*N, b*N)` has b - a starts |
| Schedule.TileStartsSplit | examples/flash_attention.py:350-362 | the starts of `[0, a*N)` followed by those of `[a*N, b*N)` are the starts of `[0, b*N)` |
| Schedule.TileStartsNext | examples/flash_attention.py:90 | consecutive starts are one tile apart, and the last is within one tile of hi |
| Schedule.InnerStep | examples/flash_attention.py:90-145 | one iteration of the inner loop keeps its invariant: next start, pointers advanced by BLOCK_N, one more tile fed |
| Schedule.InnerDone | examples/flash_attention.py:90 | on leaving the loop the state has been fed every tile of the range |
| Schedule.AttnFwdInner | examples/flash_attention.py:90-145 | `_attn_fwd_inner` returns the state after feeding exactly the tiles of `range(block_min, block_max, BLOCK_N)`, in order, each with its pointers, dropout counter and applied masks |
| Schedule.FullTileUniform | examples/flash_attention.py:352-360 | a full tile arrives exactly as the reference tile at the same offset |
| Schedule.MaskedTileUniform | examples/flash_attention.py:365-379 | a masked tile, with pointers advanced by `n_full_blocks * BLOCK_N`, arrives exactly as the reference tile |
| Schedule.FullInputsUniform | examples/flash_attention.py:352-360 | the first call hands over the reference tiles `0 .. n_full_blocks - 1` |
| Schedule.MaskedInputsUniform | examples/flash_attention.py:365-379 | the second call hands over the reference tiles `n_full_blocks .. n_blocks - 1` |
| Schedule.UniformInputsAppend | examples/flash_attention.py:350-379 | reference inputs of concatenated start lists are the concatenation of the reference inputs |
| Schedule.TwoPhaseMatchesUniform | examples/flash_attention.py:350-379 | two-phase equivalence: the full call followed by the masked call is the fold over all reference tiles `0 .. n_blocks - 1` |
| Schedule.RunPhases | examples/flash_attention.py:350-379 | the two-phase schedule, calls skipped when empty, yields the fold over the reference tiles `0 .. n_blocks - 1` |
| Schedule.OutputRowsZeroed | examples/flash_attention.py:383-393 | the rows a program clears are exactly the rows causal masking leaves without a key |
| Schedule.AttnFwd | examples/flash_attention.py:239-403 | no write iff the resolver stops the program; zero tile iff causal early exit, stored BLOCK_DMODEL columns wide; the final store ACTUAL_BLOCK_DMODEL columns wide; the Q block every tile carries is query head offHQ's, at row start_m*BLOCK_M of its sequence; the output goes to the query head's own base; the state is the reference fold; a row is cleared iff causal masking leaves it no key |
| Schedule.TilesReadOwnHeads | examples/flash_attention.py:282-300 | every tile handed to the update carries the program's own Q block (head offHQ, rows from start_m*BLOCK_M) and the K and V blocks of its group's key/value head at the tile's key offset |
| Schedule.PackedPlanMatchesFixed | examples/flash_attention.py:239-258 | on an equal-length batch a packed program that is not stopped works on the same tile parameters, and so the same plan, as the fixed-length program of the same tile, head and batch element |
| Schedule.EarlyExitStoreOverlaps | examples/flash_attention.py:258-269 | with a padded head, the early-exit zero tile of one program writes an output element that another, non-exiting program stores a live row into |
| Schedule.ClippedStoresDisjoint | examples/flash_attention.py:394-403 | stores clipped to ACTUAL_BLOCK_DMODEL columns, as the final store is, never write the same packed output element from two different (batch, head, row, column) positions (iff) |
| Loads.LoadFn | examples/flash_attention.py:46-55 | `load_fn` reads an element exactly when it is inside the tensor, and reaches outside exactly when it falls off only unchecked axes |
| Loads.UncheckedKeysExist | examples/flash_attention.py:91-103 | on a visited tile, a key column the call does not check exists |
| Loads.KeyValueLoadsInBounds | examples/flash_attention.py:91-103 | the K and V loads never reach outside their tensors on any visited tile |
| Loads.BiasAccess | examples/flash_attention.py:117 | the bias load as written reaches outside the tensor exactly at rows beyond the query length (for an existing key column) |
| Loads.BiasRowsUnchecked | examples/flash_attention.py:117 | a concrete program whose visited tile has a bias load beyond the last query row |
| Loads.BiasAccessChecked | examples/flash_attention.py:117 | with the query axis checked, a row beyond the query length is zero-filled |
| Loads.BiasLoadsInBounds | examples/flash_attention.py:117 | with the query axis checked, the bias load never reaches outside the tensor on a visited tile |
| Launch.CheckArgs | examples/flash_attention.py:408-427 | `check_args` passes exactly when every demand holds, and otherwise names the first failing assertion: a rank mismatch exactly when the ranks differ; with equal ranks, `NotPacked` exactly when packed mode gets a rank other than 3, and `NotPadded` exactly when fixed-length mode gets a rank other than 4 |
| Launch.FirstAbove | examples/flash_attention.py:447-450 | the `for ... break` search: the first width, in iteration order, above head_size; None exactly when no width lies above it |
| Launch.PaddedHeadWidth | examples/flash_attention.py:444-453 | `padded_d_model` is head_size itself when unpadded, otherwise the first width above it in the order the loop visits the set, which is a parameter (any ordering of the four widths); whatever that order, it exists exactly when head_size <= 256 and is then an unpadded width at or above head_size |
| Launch.PaddedWidthSkipsSmaller | examples/flash_attention.py:444-450 | head_size 40 is padded to 256 under both CPython orders (32, 256, 64, 128 when compiled from source; 256, 32, 64, 128 from cached bytecode) although 64 is an unpadded width that holds it |
| Launch.IterationOrdersDiffer | examples/flash_attention.py:444-450 | the two CPython orders pad alike from 32 up; below 32 the source-compiled order pads to 32, while the cached-bytecode order pads every non-unpadded head size below 256 to 256 |
| Launch.FirstAboveSortedIsLeast | examples/flash_attention.py:447-450 | over widths in ascending order, the first width above head_size is the least one |
| Launch.IntendedPaddedWidth | examples/flash_attention.py:444-453 | the corrected padded width: exists exactly when head_size <= 256, and is then the least unpadded width at or above head_size |
| Launch.LaunchGrid | examples/flash_attention.py:455-459 | the grid has the least number of query tiles covering `max_seqlens_q` |
| Launch.EveryRowOwned | examples/flash_attention.py:455-459 | each row of each sequence and head is owned by exactly one program in the grid, which does not return early |
| Launch.AcceptedArgsLaunch | examples/flash_attention.py:425-427 | accepted arguments admit a padded head width and send every query head to an existing key/value head |

## Left out

- Softmax numerics are not modelled. This covers `m_i`, `l_i`, `acc`,
  `exp2`, `qk_scale`, the division by `l_i` and by `1 - dropout_p`, and
  the cast to the output type. They are the abstract state `A` and `step`.
- The Philox generator, `tl.rand`, the `uint32` cast of counters and the
  comparison with `dropout_p` are not modelled. Only the counter offsets are.
- The encoded-softmax store is not modelled. Its pointer advance at line 372
  moves by `n_full_blocks` columns, not `n_full_blocks * BLOCK_N`.
- Bias values are not modelled, and neither is the bias base address, which
  uses only the head stride (line 311). The model keeps only the bias
  pointer's column offset.
- `PRE_LOAD_V` changes only when V is loaded, not which tile or mask, so it
  is not modelled.
- Autotuning, the `tl.debug_barrier` and the concurrency of programs in
  the grid are not modelled. Each program is modelled alone.
  `Launch.EveryRowOwned` and `Schedule.ClippedStoresDisjoint` state why
  final stores do not collide. The early-exit store can collide with
  another program's store (see Findings).
- The autograd wrapper beyond argument checking, padding and the grid is
  not modelled: tensor allocation, strides read from torch, the kernel
  launch call and the benchmark.
- Schedule.AttnFwd: models the stores by base address and declared
  column count only, not by the values stored. It keeps the early-exit
  store BLOCK_DMODEL wide, as the code has it; the overlap this causes is
  a finding below.
- Launch.EveryRowOwned: assumes, as a requires, that no packed query
  sequence is longer than `max_seqlens_q`. The wrapper does not check this.
- Launch.PaddedHeadWidth: the order in which the loop visits the set
  literal is left to the interpreter, so it is a parameter. CPython visits
  32, 256, 64, 128 when the module is compiled from source, and from 3.11
  on 256, 32, 64, 128 when it is loaded from cached bytecode. The same
  interpreter can therefore pad a head size below 32 differently on the
  first import and on later ones (`Launch.IterationOrdersDiffer`).
- TilePlan.NBlocks: the device's `//` is modelled as truncation toward
  zero. `TilePlan.NBlocksRoundingAgnostic` shows the plan does not depend
  on this.
- SequenceIndex.PackedAddress: offsets are unbounded integers. On the
  device `cu_seqlens_*_start * stride_*` and the head and batch offsets
  (lines 282, 291, 300, 394) are 32-bit products. The lemma describes the
  kernel only while every offset stays below 2^31.
- SequenceIndex.PackedElementsDisjoint: unbounded integers as for
  PackedAddress; it describes the device only while offsets are below 2^31.
- SequenceIndex.PackedMatchesPadded: unbounded integers as for
  PackedAddress; it describes the device only while offsets are below 2^31.
- Schedule.ClippedStoresDisjoint: unbounded integers as for PackedAddress;
  it describes the device only while offsets are below 2^31.
- Dropout.CounterClosedForm: counters are unbounded integers. On the device
  `(off_z * HQ + off_h_q) * seqlen_q * seqlen_k` (line 321) is a 32-bit
  product, and the offsets are cast to `uint32` before `tl.rand`.
- Dropout.CountersDistinct: holds for the unbounded counters. On the device
  counters wrap at 2^32, so it describes the kernel only while
  batch * heads * seqlen_q * seqlen_k stays below 2^32 (32 x 8 x 4096 x 4096
  already reaches it).
- Tensor element types and shapes in `check_args` are reduced to a shape
  sequence and an opaque dtype code.

## Findings

| source | as written | input that shows it | evidently intended | confidence | as-written member | corrected member |
|---|---|---|---|---|---|---|
| examples/flash_attention.py:262 | the early-exit zero tile is stored through a block pointer declared `(seqlen_q, BLOCK_DMODEL)`, wider than the `(seqlen_q, ACTUAL_BLOCK_DMODEL)` of the final store (line 397) | one head of size 40 (padded to 256 by the wrapper), causal, seqlen_q = 32, seqlen_k = 16, BLOCK_M = BLOCK_N = 16: query tile 0 exits early and zeroes column 40 of row 15, which is column 0 of row 16, a live row that query tile 1 stores | declare the early-exit block `(seqlen_q, ACTUAL_BLOCK_DMODEL)` like the final store | not executed | Schedule.AttnFwd, Schedule.EarlyExitStoreOverlaps | Schedule.ClippedStoresDisjoint |
| examples/flash_attention.py:447 | `padded_d_model` is the first width above head_size in the iteration order of the set `{32, 64, 128, 256}`, which in CPython is 32, 256, 64, 128 when compiled from source and 256, 32, 64, 128 when loaded from cached bytecode (3.11 and later) | head_size = 40 (likewise every head size from 33 to 127 other than 64): padded to 256 in both orders although 64 holds it, so the kernel runs with BLOCK_DMODEL four times wider than needed; under the cached-bytecode order every head size below 256 that is not unpadded pads to 256, including 1 to 31 | pad to the next unpadded width up (iterate a sorted list) | not executed | Launch.PaddedHeadWidth, Launch.PaddedWidthSkipsSmaller, Launch.IterationOrdersDiffer | Launch.IntendedPaddedWidth, Launch.FirstAboveSortedIsLeast |
| examples/flash_attention.py:117 | the bias block (BLOCK_M rows from `start_m * BLOCK_M` of a `seqlen_q`-row tensor) is loaded with boundary check only on the key axis | seqlen_q = seqlen_k = 1, BLOCK_M = BLOCK_N = 16, no causal masking: row 1 of the bias block is read past the tensor | check the query axis as well, as the Q load does (line 339) | not executed | Loads.BiasAccess, Loads.BiasRowsUnchecked | Loads.BiasAccessChecked, Loads.BiasLoadsInBounds |
