/**
 * The masks applied to a score tile, and the soundness of the full/masked
 * tile split: a full tile holds no entry any mask would remove, a masked
 * tile is masked exactly as if every mask were applied everywhere, and a
 * tile that is never visited holds no entry any row may keep.
 *
 * Rows are absolute query positions, columns absolute key positions.
 */
module Masks {
  import opened TileMath
  import opened TilePlan

  /** Boundary mask: key column c exists. */
  predicate BoundaryKeep(p: Program, c: int)
  {
    c < p.seqlenK
  }

  /** Causal mask: query row r may see key column c (diagonal shifted by `seqlen_q - seqlen_k`). */
  predicate CausalKeep(p: Program, r: int, c: int)
  {
    r >= c + p.Diag()
  }

  /** The reference masking: every applicable mask applied to every entry. */
  predicate UniformKeep(p: Program, r: int, c: int)
  {
    BoundaryKeep(p, c) && (!p.causal || CausalKeep(p, r, c))
  }

  /** The masking arguments of one call of the inner loop. */
  datatype MaskArgs = MaskArgs(maskSteps: bool, isCausal: bool, causalShift: int, nExtra: int, blockMax: int)

  /**
   * What the inner loop keeps at tile-local entry (i, j) of the tile at key
   * offset `startN`: the boundary mask only on the last tile of a masked
   * call and only when the keys are ragged, then the causal mask if asked.
   */
  predicate AppliedKeep(p: Program, a: MaskArgs, startN: int, i: int, j: int)
  {
    var boundaryTile := a.maskSteps && startN + p.blockN == a.blockMax && a.nExtra != 0;
    && (!boundaryTile || startN + j < p.seqlenK)
    && (!a.isCausal || p.FirstRow() + i >= startN + j + a.causalShift)
  }

  /** The first call: no masking at all, over the full tiles. */
  function FullPhaseArgs(p: Program, plan: Plan): MaskArgs
    requires plan.Tiles?
  {
    MaskArgs(false, false, 0, 0, plan.FullBlocks() * p.blockN)
  }

  /** The second call: boundary and causal masking, over the masked tiles. */
  function MaskedPhaseArgs(p: Program, plan: Plan): MaskArgs
    requires plan.Tiles?
  {
    MaskArgs(true, p.causal, if p.causal then p.Diag() else 0, plan.nExtra, plan.nBlocks * p.blockN)
  }

  /** Some key column of the sequence survives every mask for row r. */
  ghost predicate HasAllowedKey(p: Program, r: int)
  {
    exists c :: 0 <= c < p.seqlenK && UniformKeep(p, r, c)
  }

  /** Post-normalisation row zeroing: under causal masking, rows above the diagonal start are cleared. */
  predicate ZeroedAfterNormalise(p: Program, r: int)
  {
    p.causal && p.FirstRow() < p.Diag() < p.EndRow() && r < p.Diag()
  }

  /** Arithmetic core of the boundary half of FullTilesNeedNoMask. */
  lemma FullBoundaryArith(nb: int, mb: int, n: int, lim: int, sk: int, c: int)
    requires n > 0 && 0 <= mb <= nb && lim <= sk && nb * n < lim + n
    requires mb >= 1 || nb * n == sk
    requires 0 <= c < (nb - mb) * n
    ensures c < sk
  {
    if mb >= 1 {
      MulLeq(nb - mb, nb - 1, n);
      assert (nb - 1) * n == nb * n - n;
    }
  }

  /** Arithmetic core of the causal half of FullTilesNeedNoMask. */
  lemma FullDiagonalArith(nb: int, k: int, e: int, n: int, lim: int, x: int, c: int)
    requires n > 0 && (e == 0 || e == 1) && lim <= x && nb * n < lim + n
    requires e == 0 ==> nb * n == lim
    requires 0 <= c < (nb - (k + e)) * n
    ensures c < x - k * n
  {
    assert (nb - (k + e)) * n == nb * n - k * n - e * n;
  }

  /** When both tile edges are aligned, the causal key limit is a multiple of BLOCK_N. */
  lemma AlignedCausalLimit(p: Program) returns (q: int)
    requires p.Valid()
    requires p.seqlenK % p.blockN == 0 && p.seqlenQ % p.blockM == 0
    ensures CausalKeyLimit(p) == q * p.blockN
  {
    var n, m := p.blockN, p.blockM;
    var k, sk, sq := m / n, p.seqlenK / n, p.seqlenQ / m;
    assert m == k * n;
    assert p.seqlenK == sk * n;
    assert p.seqlenQ == sq * m;
    assert p.seqlenQ == (sq * k) * n;
    assert (p.startM + 1) * m == ((p.startM + 1) * k) * n;
    q := (p.startM + 1) * k - sq * k + sk;
    assert q * n == ((p.startM + 1) * k) * n - (sq * k) * n + sk * n;
  }

  /** Every key column before `n_full_blocks * BLOCK_N` exists. */
  lemma FullTilesInBounds(p: Program, rnd: Rounding, c: int)
    requires p.Valid() && PlanFor(p, rnd).Tiles?
    requires 0 <= c < PlanFor(p, rnd).FullBlocks() * p.blockN
    ensures BoundaryKeep(p, c)
  {
    var plan := PlanFor(p, rnd);
    var n := p.blockN;
    if plan.maskedBlocks == 0 {
      var s := p.seqlenK / n;
      DivExact(p.seqlenK, n);
      SameTile(plan.nBlocks, s, n, plan.nBlocks * n);
    }
    FullBoundaryArith(plan.nBlocks, plan.maskedBlocks, n, KeyLimit(p), p.seqlenK, c);
  }

  /** When both tile edges are aligned, the visited tiles end exactly at the usable key limit. */
  lemma AlignedTilesExact(p: Program, rnd: Rounding)
    requires p.Valid() && PlanFor(p, rnd).Tiles? && p.causal
    requires p.seqlenK % p.blockN == 0 && p.seqlenQ % p.blockM == 0
    ensures PlanFor(p, rnd).nBlocks * p.blockN == KeyLimit(p)
  {
    var n, nb := p.blockN, PlanFor(p, rnd).nBlocks;
    var qx := AlignedCausalLimit(p);
    var s := p.seqlenK / n;
    DivExact(p.seqlenK, n);
    if p.seqlenK <= CausalKeyLimit(p) {
      SameTile(nb, s, n, nb * n);
    } else {
      SameTile(nb, qx, n, nb * n);
    }
  }

  /** Under causal masking, every row of the query tile may see every key column of a full tile. */
  lemma FullTilesBelowDiagonal(p: Program, rnd: Rounding, r: int, c: int)
    requires p.Valid() && PlanFor(p, rnd).Tiles? && p.causal
    requires 0 <= c < PlanFor(p, rnd).FullBlocks() * p.blockN
    requires r >= p.FirstRow()
    ensures CausalKeep(p, r, c)
  {
    var plan := PlanFor(p, rnd);
    var n, m := p.blockN, p.blockM;
    var nb, mb := plan.nBlocks, plan.maskedBlocks;
    var k := m / n;
    DivExact(m, n);
    var paddedBlockK := NExtraTokens(p.seqlenK, n) != 0;
    var isModuloMN := !paddedBlockK && p.seqlenQ % m == 0;
    var e := if isModuloMN then 0 else 1;
    assert mb == k + e;
    if isModuloMN {
      AlignedTilesExact(p, rnd);
    }
    FullDiagonalArith(nb, k, e, n, KeyLimit(p), CausalKeyLimit(p), c);
    assert (p.startM + 1) * m == p.FirstRow() + m;
  }

  /**
   * Full tiles need no masking: every key column before
   * `n_full_blocks * BLOCK_N` exists, and under causal masking every row of
   * the query tile may see it.
   */
  lemma FullTilesNeedNoMask(p: Program, rnd: Rounding, r: int, c: int)
    requires p.Valid() && PlanFor(p, rnd).Tiles?
    requires 0 <= c < PlanFor(p, rnd).FullBlocks() * p.blockN
    requires r >= p.FirstRow()
    ensures UniformKeep(p, r, c)
  {
    FullTilesInBounds(p, rnd, c);
    if p.causal {
      FullTilesBelowDiagonal(p, rnd, r, c);
    }
  }

  /** Arithmetic core of MaskedTilesMatchUniform. */
  lemma MaskedBoundaryArith(t: int, nb: int, n: int, j: int, lim: int, sk: int)
    requires n > 0 && 0 <= j < n && t < nb && nb * n < lim + n && lim <= sk
    requires t + 1 < nb || nb * n <= sk
    ensures t * n + j < sk
  {
    MulLeq(t + 1, nb, n);
    assert (t + 1) * n == t * n + n;
    if t + 1 < nb {
      MulLeq(t + 2, nb, n);
      assert (t + 2) * n == t * n + n + n;
    }
  }

  /**
   * On a masked tile the boundary mask is skipped only where it would keep
   * everything: on every tile but the last, and on the last one when the
   * key length is a positive multiple of BLOCK_N.
   */
  lemma UnmaskedBoundaryInRange(p: Program, rnd: Rounding, t: int, j: int)
    requires p.Valid() && PlanFor(p, rnd).Tiles?
    requires t < PlanFor(p, rnd).nBlocks && 0 <= j < p.blockN
    requires t * p.blockN + p.blockN != PlanFor(p, rnd).nBlocks * p.blockN || PlanFor(p, rnd).nExtra == 0
    ensures t * p.blockN + j < p.seqlenK
  {
    var plan := PlanFor(p, rnd);
    var n, nb := p.blockN, plan.nBlocks;
    assert KeyLimit(p) <= p.seqlenK;
    if t * n + n != nb * n {
      assert (t + 1) * n == t * n + n;
      MaskedBoundaryArith(t, nb, n, j, KeyLimit(p), p.seqlenK);
    } else {
      LastTileAligned(p, rnd);
      MaskedBoundaryArith(t, nb, n, j, KeyLimit(p), p.seqlenK);
    }
  }

  /** With no ragged tail, the visited tiles end within the key sequence. */
  lemma LastTileAligned(p: Program, rnd: Rounding)
    requires p.Valid() && PlanFor(p, rnd).Tiles? && PlanFor(p, rnd).nExtra == 0
    ensures PlanFor(p, rnd).nBlocks * p.blockN <= p.seqlenK
  {
    var n := p.blockN;
    assert p.seqlenK % n == 0;
    DivExact(p.seqlenK, n);
    assert KeyLimit(p) <= p.seqlenK;
    AlignedCoverArith(PlanFor(p, rnd).nBlocks, n, KeyLimit(p), p.seqlenK / n);
  }

  /** Arithmetic core of LastTileAligned. */
  lemma AlignedCoverArith(nb: int, n: int, lim: int, s: int)
    requires n > 0 && lim <= s * n && nb * n < lim + n
    ensures nb * n <= s * n
  {
    assert (s + 1) * n == s * n + n;
    MulCancelLt(nb, s + 1, n);
    MulLeq(nb, s, n);
  }

  /**
   * Masked tiles are masked exactly as the reference masking would mask
   * them: on every tile of the second call the applied boundary and causal
   * masks agree with UniformKeep at every tile-local entry.
   */
  lemma MaskedTilesMatchUniform(p: Program, rnd: Rounding, t: int, i: int, j: int)
    requires p.Valid() && PlanFor(p, rnd).Tiles?
    requires PlanFor(p, rnd).FullBlocks() <= t < PlanFor(p, rnd).nBlocks
    requires 0 <= j < p.blockN
    ensures AppliedKeep(p, MaskedPhaseArgs(p, PlanFor(p, rnd)), t * p.blockN, i, j)
        <==> UniformKeep(p, p.FirstRow() + i, t * p.blockN + j)
  {
    var plan := PlanFor(p, rnd);
    if !(t * p.blockN + p.blockN == plan.nBlocks * p.blockN && plan.nExtra != 0) {
      UnmaskedBoundaryInRange(p, rnd, t, j);
    }
  }

  /**
   * Skipped tiles hold nothing: for every row of the query tile, every key
   * column at or beyond `n_blocks * BLOCK_N` (every column at all, after a
   * causal early exit) is missing or causally masked.
   */
  lemma SkippedTilesMasked(p: Program, rnd: Rounding, r: int, c: int)
    requires p.Valid()
    requires r < p.EndRow() && c >= 0
    requires PlanFor(p, rnd).Tiles? ==> c >= PlanFor(p, rnd).nBlocks * p.blockN
    ensures !UniformKeep(p, r, c)
  {
  }

  /**
   * Under causal masking, a row of the query tile is written as zero (by the
   * early exit or by the post-normalisation zeroing) exactly when no key
   * column is causally allowed for it.
   */
  lemma CausalZeroRows(p: Program, rnd: Rounding, r: int)
    requires p.Valid() && p.causal
    requires p.FirstRow() <= r < p.EndRow()
    ensures PlanFor(p, rnd).EarlyExit? || ZeroedAfterNormalise(p, r) <==> !HasAllowedKey(p, r)
  {
    if p.seqlenK > 0 && r >= p.Diag() {
      assert UniformKeep(p, r, 0);
    }
  }
}
