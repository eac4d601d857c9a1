/**
 * The tile planner of one program instance (one query tile of one head of
 * one batch element): how many key tiles it visits, how many of those need
 * per-entry masking, and whether it can return a zero tile at once.
 */
module TilePlan {
  import opened TileMath

  /**
   * Tile sizes. The full/masked split is only sound when BLOCK_M is a
   * multiple of BLOCK_N, which holds for every shipped configuration.
   */
  predicate ValidBlocks(blockM: int, blockN: int)
  {
    blockM > 0 && blockN > 0 && blockM % blockN == 0
  }

  /** What one program instance knows once its sequences are resolved. */
  datatype Program = Program(blockM: nat, blockN: nat, startM: nat,
                             seqlenQ: nat, seqlenK: nat, causal: bool)
  {
    predicate Valid()
    {
      ValidBlocks(blockM, blockN)
    }

    /** First absolute query row of the tile, `start_m * BLOCK_M`. */
    function FirstRow(): int
    {
      startM * blockM
    }

    /** One past the last query row of the tile, `(start_m + 1) * BLOCK_M`. */
    function EndRow(): int
    {
      (startM + 1) * blockM
    }

    /** The causal diagonal offset `seqlen_q - seqlen_k`. */
    function Diag(): int
    {
      seqlenQ - seqlenK
    }
  }

  function Min(a: int, b: int): int
  {
    if a <= b then a else b
  }

  /**
   * `(start_m + 1) * BLOCK_M + seqlen_k - seqlen_q`: no row of the tile may
   * causally see a key column at or beyond this one.
   */
  function CausalKeyLimit(p: Program): int
  {
    p.EndRow() - p.Diag()
  }

  /** The key columns the tile can use: the key length, cut by the causal limit. */
  function KeyLimit(p: Program): int
  {
    if p.causal then Min(p.seqlenK, CausalKeyLimit(p)) else p.seqlenK
  }

  /**
   * `n_blocks`: the ceiling of the key length over BLOCK_N, shrunk under
   * causal masking to the tiles that can hold an unmasked entry. It is the
   * number of tiles covering KeyLimit key columns, and it is non-positive
   * exactly when KeyLimit is, whichever way `//` rounds.
   */
  function NBlocks(p: Program, rnd: Rounding): (n: int)
    requires p.blockN > 0
    ensures n <= 0 <==> KeyLimit(p) <= 0
    ensures KeyLimit(p) >= 0 ==> KeyLimit(p) <= n * p.blockN < KeyLimit(p) + p.blockN
  {
    var nk := CDiv(p.seqlenK, p.blockN, rnd);
    if p.causal then
      var nq := CDiv(CausalKeyLimit(p), p.blockN, rnd);
      if KeyLimit(p) >= 0 then
        MinCover(p.seqlenK, CausalKeyLimit(p), nk, nq, p.blockN);
        Min(nk, nq)
      else
        Min(nk, nq)
    else
      nk
  }

  /** Tile counts covering a and b give, by their minimum, a count covering the minimum of a and b. */
  lemma MinCover(a: int, b: int, x: int, y: int, n: int)
    requires n > 0 && a >= 0 && b >= 0
    requires a <= x * n < a + n && b <= y * n < b + n
    ensures Min(a, b) <= Min(x, y) * n < Min(a, b) + n
  {
    if a <= b {
      MulCancelLt(x, y + 1, n);
    } else {
      MulCancelLt(y, x + 1, n);
    }
  }

  /**
   * Under causal masking the program returns a zero tile exactly when there
   * are no keys or the causal limit is at or before column 0, and the two
   * roundings of `//` never disagree about that, nor about a positive count.
   */
  lemma NBlocksRoundingAgnostic(p: Program)
    requires p.blockN > 0
    ensures p.causal ==> (NBlocks(p, Floor) <= 0 <==> p.seqlenK == 0 || CausalKeyLimit(p) <= 0)
    ensures NBlocks(p, Floor) <= 0 <==> NBlocks(p, TowardZero) <= 0
    ensures NBlocks(p, Floor) > 0 ==> NBlocks(p, Floor) == NBlocks(p, TowardZero)
  {
    CDivRoundingAgree(p.seqlenK, p.blockN);
    if CausalKeyLimit(p) + p.blockN > 0 {
      CDivRoundingAgree(CausalKeyLimit(p), p.blockN);
    }
  }

  /**
   * `n_extra_tokens`: non-zero exactly when the key length is not a positive
   * multiple of BLOCK_N, and then between 1 and BLOCK_N. Only whether it is
   * zero is ever used downstream.
   */
  function NExtraTokens(seqlenK: nat, blockN: nat): (n: int)
    requires blockN > 0
    ensures n != 0 <==> seqlenK % blockN != 0 || seqlenK == 0
    ensures n != 0 ==> 1 <= n <= blockN
  {
    if seqlenK < blockN then blockN - seqlenK
    else if seqlenK % blockN != 0 then seqlenK % blockN
    else 0
  }

  /**
   * `masked_blocks`: under causal masking the tiles that straddle the
   * diagonal (BLOCK_M / BLOCK_N, one more when the tile edges are not
   * aligned), otherwise the ragged last tile if there is one; never more
   * than `n_blocks`.
   */
  function MaskedBlocks(p: Program, nBlocks: int): (m: int)
    requires p.Valid()
    ensures nBlocks >= 0 ==> 0 <= m <= nBlocks
    ensures nBlocks > 0 && (p.causal || NExtraTokens(p.seqlenK, p.blockN) != 0) ==> m >= 1
  {
    var paddedBlockK := NExtraTokens(p.seqlenK, p.blockN) != 0;
    var isModuloMN := !paddedBlockK && p.seqlenQ % p.blockM == 0;
    var m := if p.causal then p.blockM / p.blockN + (if isModuloMN then 0 else 1)
             else if paddedBlockK then 1 else 0;
    Min(m, nBlocks)
  }

  /** The plan of a program instance: a causal early exit, or the tile counts. */
  datatype Plan = EarlyExit | Tiles(nBlocks: nat, maskedBlocks: nat, nExtra: int)
  {
    /** `n_full_blocks`. */
    function FullBlocks(): int
      requires Tiles?
    {
      nBlocks - maskedBlocks
    }
  }

  /**
   * The plan computed at the head of the kernel. The early exit is taken
   * exactly under causal masking with no usable key column; otherwise the
   * `n_blocks` visited tiles split into `n_full_blocks` full tiles followed
   * by `masked_blocks` masked ones, both counts non-negative, and together
   * they cover the usable key columns with less than one tile to spare.
   */
  function PlanFor(p: Program, rnd: Rounding): (plan: Plan)
    requires p.Valid()
    ensures plan.EarlyExit? <==> p.causal && (p.seqlenK == 0 || CausalKeyLimit(p) <= 0)
    ensures plan.Tiles? ==> 0 <= plan.maskedBlocks <= plan.nBlocks
    ensures plan.Tiles? ==> KeyLimit(p) <= plan.nBlocks * p.blockN < KeyLimit(p) + p.blockN
  {
    var nb := NBlocks(p, rnd);
    if p.causal && nb <= 0 then EarlyExit
    else Tiles(nb, MaskedBlocks(p, nb), NExtraTokens(p.seqlenK, p.blockN))
  }
}
