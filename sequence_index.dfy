/**
 * Resolving a batch element's sequences and addressing its rows.
 *
 * In packed (variable-length) mode the sequences of all batch elements are
 * concatenated along the token axis of a (total_tokens, heads, dim) tensor,
 * and batch element z owns the tokens `[cu[z], cu[z + 1])` of the
 * cumulative-length table. The wrapper passes a batch stride of 0, so the
 * batch index reaches an address only through `cu[z]`.
 */
module SequenceIndex {
  import opened Wrappers
  import TileMath

  /** Lengths and first tokens of one batch element's query and key sequences. */
  datatype SeqSpan = SeqSpan(seqlenQ: nat, seqlenK: nat, startQ: int, startK: int)

  /** A cumulative-length table is non-decreasing. */
  ghost predicate Monotone(cu: seq<int>)
  {
    forall i, j | 0 <= i <= j < |cu| :: cu[i] <= cu[j]
  }

  /** The caller's precondition on the tables in packed mode, for batch element z. */
  predicate TablesCover(cuQ: seq<int>, cuK: seq<int>, offZ: nat)
  {
    && offZ + 1 < |cuQ| && offZ + 1 < |cuK|
    && cuQ[offZ] <= cuQ[offZ + 1] && cuK[offZ] <= cuK[offZ + 1]
  }

  /**
   * The sequence resolver. In packed mode the query span is read first and a
   * program whose first row `startM * blockM` lies strictly beyond the query
   * length returns without doing anything (None); otherwise the spans are the
   * z-th segments of the two tables. In fixed mode the spans are the
   * configured maxima, starting at token 0.
   */
  function ResolveSequence(varlen: bool, cuQ: seq<int>, cuK: seq<int>, offZ: nat,
                           maxQ: nat, maxK: nat, startM: nat, blockM: nat): (r: Option<SeqSpan>)
    requires varlen ==> TablesCover(cuQ, cuK, offZ)
    ensures r.None? <==> varlen && startM * blockM > cuQ[offZ + 1] - cuQ[offZ]
    ensures r.Some? && varlen ==>
      && r.value.startQ == cuQ[offZ] && r.value.startQ + r.value.seqlenQ == cuQ[offZ + 1]
      && r.value.startK == cuK[offZ] && r.value.startK + r.value.seqlenK == cuK[offZ + 1]
      && startM * blockM <= r.value.seqlenQ
    ensures r.Some? && !varlen ==> r.value == SeqSpan(maxQ, maxK, 0, 0)
  {
    if varlen then
      var seqlenQ := cuQ[offZ + 1] - cuQ[offZ];
      if startM * blockM > seqlenQ then None
      else Some(SeqSpan(seqlenQ, cuK[offZ + 1] - cuK[offZ], cuQ[offZ], cuK[offZ]))
    else
      Some(SeqSpan(maxQ, maxK, 0, 0))
  }

  /**
   * Packed and fixed-length resolution agree on equal-length batches: when
   * every query sequence has length lq and every key sequence length lk
   * (`cuQ[z] = z * lq`, `cuK[z] = z * lk`) and the configured maxima are
   * those lengths, both modes give batch element z the same lengths. They
   * differ only in the first tokens (`z * lq` against 0: the fixed layout
   * reaches batch z through its batch stride instead), and in that packed
   * mode stops a program whose first row lies beyond lq.
   */
  lemma PackedMatchesFixed(cuQ: seq<int>, cuK: seq<int>, offZ: nat, lq: nat, lk: nat, startM: nat, blockM: nat)
    requires offZ + 1 < |cuQ| && offZ + 1 < |cuK|
    requires forall i | 0 <= i < |cuQ| :: cuQ[i] == i * lq
    requires forall i | 0 <= i < |cuK| :: cuK[i] == i * lk
    ensures TablesCover(cuQ, cuK, offZ)
    ensures var packed := ResolveSequence(true, cuQ, cuK, offZ, lq, lk, startM, blockM);
            var fixed := ResolveSequence(false, cuQ, cuK, offZ, lq, lk, startM, blockM);
            && fixed == Some(SeqSpan(lq, lk, 0, 0))
            && (packed.None? <==> startM * blockM > lq)
            && (packed.Some? ==> packed.value == SeqSpan(lq, lk, offZ * lq, offZ * lk))
  {
    assert cuQ[offZ + 1] == offZ * lq + lq by { TileMath.AddMul(offZ, 1, lq); }
    assert cuK[offZ + 1] == offZ * lk + lk by { TileMath.AddMul(offZ, 1, lk); }
  }

  /**
   * Rows of different batch elements never share a token: row r of batch
   * element z is token `cu[z] + r`, and two such tokens coincide only for the
   * same element and row.
   */
  lemma PackedTokensDisjoint(cu: seq<int>, z1: nat, r1: nat, z2: nat, r2: nat)
    requires Monotone(cu)
    requires z1 + 1 < |cu| && z2 + 1 < |cu|
    requires r1 < cu[z1 + 1] - cu[z1] && r2 < cu[z2 + 1] - cu[z2]
    ensures cu[z1] + r1 == cu[z2] + r2 <==> z1 == z2 && r1 == r2
  {
    if z1 < z2 {
      assert cu[z1 + 1] <= cu[z2];
    } else if z2 < z1 {
      assert cu[z2 + 1] <= cu[z1];
    }
  }

  /** Strides of the 4-D (batch, head, sequence, dim) view the kernel receives. */
  datatype Strides = Strides(z: int, h: int, m: int, d: int)

  /**
   * The wrapper's view of a packed (total, heads, dim) tensor whose own
   * strides are (s0, s1, s2): batch stride 0, head stride s1, token stride s0.
   */
  function PackedView(s0: int, s1: int, s2: int): (s: Strides)
    ensures s.z == 0
  {
    Strides(0, s1, s0, s2)
  }

  /** `q_offset`, `k_offset`, `v_offset`, `o_offset`: where a (batch, head) sequence starts. */
  function BaseOffset(offZ: nat, offH: nat, seqStart: int, s: Strides): int
  {
    offZ * s.z + offH * s.h + seqStart * s.m
  }

  /** Address of element (row, col) of a block pointer at `base` with the view's row and column strides. */
  function ElementOffset(base: int, row: int, col: int, s: Strides): int
  {
    base + row * s.m + col * s.d
  }

  /** Flat index of (token, head, dim) in a contiguous (total, heads, dim) tensor. */
  function PackedIndex(token: int, head: int, dim: int, nheads: nat, headSize: nat): int
  {
    (token * nheads + head) * headSize + dim
  }

  /**
   * For a contiguous packed tensor, element (row, col) of the tile of batch
   * element z and head h is the flat element of token `seqStart + row`; the
   * batch index itself does not enter.
   */
  lemma PackedAddress(offZ: nat, offH: nat, seqStart: int, row: int, col: int, nheads: nat, headSize: nat)
    ensures ElementOffset(BaseOffset(offZ, offH, seqStart, PackedView(nheads * headSize, headSize, 1)),
                          row, col, PackedView(nheads * headSize, headSize, 1))
         == PackedIndex(seqStart + row, offH, col, nheads, headSize)
  {
    var hd := nheads * headSize;
    calc {
      offZ * 0 + offH * headSize + seqStart * hd + row * hd + col * 1;
      (seqStart + row) * hd + offH * headSize + col;
      { assert (seqStart + row) * (nheads * headSize) == ((seqStart + row) * nheads) * headSize; }
      ((seqStart + row) * nheads) * headSize + offH * headSize + col;
      ((seqStart + row) * nheads + offH) * headSize + col;
    }
  }

  /**
   * Output tiles of different work items never overlap: two in-range
   * elements (batch element, head, row, dim) of a contiguous packed tensor
   * share an address only if they are the same element.
   */
  lemma PackedElementsDisjoint(cu: seq<int>, nheads: nat, headSize: nat,
                               z1: nat, h1: nat, r1: nat, d1: nat,
                               z2: nat, h2: nat, r2: nat, d2: nat)
    requires Monotone(cu)
    requires z1 + 1 < |cu| && z2 + 1 < |cu|
    requires r1 < cu[z1 + 1] - cu[z1] && r2 < cu[z2 + 1] - cu[z2]
    requires h1 < nheads && h2 < nheads && d1 < headSize && d2 < headSize
    ensures PackedIndex(cu[z1] + r1, h1, d1, nheads, headSize) == PackedIndex(cu[z2] + r2, h2, d2, nheads, headSize)
        <==> z1 == z2 && h1 == h2 && r1 == r2 && d1 == d2
  {
    if PackedIndex(cu[z1] + r1, h1, d1, nheads, headSize) == PackedIndex(cu[z2] + r2, h2, d2, nheads, headSize) {
      TileMath.MixedRadixInjective((cu[z1] + r1) * nheads + h1, d1, (cu[z2] + r2) * nheads + h2, d2, headSize);
      TileMath.MixedRadixInjective(cu[z1] + r1, h1, cu[z2] + r2, h2, nheads);
      PackedTokensDisjoint(cu, z1, r1, z2, r2);
    }
  }

  /**
   * Packed-versus-padded equivalence of addressing: when every sequence of a
   * contiguous packed tensor has the same length L (`cu[z] = z * L`), the
   * packed address of (z, h, row, col) equals the address the fixed-length
   * layout (batch stride `L * heads * dim`, start offset 0) gives it.
   */
  lemma PackedMatchesPadded(offZ: nat, offH: nat, row: int, col: int, len: nat, nheads: nat, headSize: nat)
    ensures ElementOffset(BaseOffset(offZ, offH, offZ * len, PackedView(nheads * headSize, headSize, 1)),
                          row, col, PackedView(nheads * headSize, headSize, 1))
         == ElementOffset(BaseOffset(offZ, offH, 0, Strides(len * (nheads * headSize), headSize, nheads * headSize, 1)),
                          row, col, Strides(len * (nheads * headSize), headSize, nheads * headSize, 1))
  {
    var hd := nheads * headSize;
    assert (offZ * len) * hd == offZ * (len * hd);
  }
}
