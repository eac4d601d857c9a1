/**
 * Counter offsets of the dropout random stream. Each score entry of each
 * (batch element, query head) pair draws its random number from a counter;
 * the kernel composes that counter in three steps: a per-(batch, head)
 * offset, a per-tile offset and a per-entry offset inside the tile.
 */
module Dropout {
  import TileMath

  /** `batch_philox_offset`: the first counter of query head `offHQ` of batch element `offZ`. */
  function BatchPhiloxOffset(base: int, offZ: nat, hq: nat, offHQ: nat, seqlenQ: nat, seqlenK: nat): int
  {
    base + (offZ * hq + offHQ) * seqlenQ * seqlenK
  }

  /** `philox_offset` of the tile at key offset `startN` of query tile `startM`. */
  function TilePhiloxOffset(batchOffset: int, startM: nat, blockM: nat, seqlenK: nat, startN: int, blockN: nat): int
  {
    batchOffset + startM * blockM * seqlenK + startN - blockN
  }

  /** `dropout_offsets`: the counter of tile-local entry (i, j), rows `stride` apart. */
  function DropoutOffset(philoxOffset: int, i: int, j: int, stride: int): int
  {
    philoxOffset + i * stride + j
  }

  /**
   * The reference numbering: entry (row, col) of head h of batch element z
   * takes the counter of its row-major position in a (batch, heads, Lq, Lk)
   * score tensor, shifted by `base - BLOCK_N`.
   */
  function EntryCounter(base: int, hq: nat, seqlenQ: nat, seqlenK: nat, blockN: nat,
                        offZ: nat, offHQ: nat, row: int, col: int): int
  {
    base + ((offZ * hq + offHQ) * seqlenQ + row) * seqlenK + col - blockN
  }

  /**
   * The three-step composition the kernel performs gives the counter of the
   * absolute entry (`startM * BLOCK_M + i`, `startN + j`) in the reference
   * numbering.
   */
  lemma CounterClosedForm(base: int, hq: nat, seqlenQ: nat, seqlenK: nat,
                          offZ: nat, offHQ: nat, startM: nat, blockM: nat, startN: int, blockN: nat,
                          i: int, j: int)
    ensures DropoutOffset(TilePhiloxOffset(BatchPhiloxOffset(base, offZ, hq, offHQ, seqlenQ, seqlenK),
                                           startM, blockM, seqlenK, startN, blockN), i, j, seqlenK)
         == EntryCounter(base, hq, seqlenQ, seqlenK, blockN, offZ, offHQ, startM * blockM + i, startN + j)
  {
    var bh := offZ * hq + offHQ;
    assert (bh * seqlenQ + (startM * blockM + i)) * seqlenK
        == bh * seqlenQ * seqlenK + startM * blockM * seqlenK + i * seqlenK;
  }

  /**
   * Within one length configuration the counters of different in-range
   * entries are different: two (batch element, head, row, column) entries
   * with `h < HQ`, `row < Lq`, `col < Lk` draw the same counter only if
   * they are the same entry.
   */
  lemma CountersDistinct(base: int, hq: nat, seqlenQ: nat, seqlenK: nat, blockN: nat,
                         z1: nat, h1: nat, r1: nat, c1: nat,
                         z2: nat, h2: nat, r2: nat, c2: nat)
    requires h1 < hq && h2 < hq && r1 < seqlenQ && r2 < seqlenQ && c1 < seqlenK && c2 < seqlenK
    ensures EntryCounter(base, hq, seqlenQ, seqlenK, blockN, z1, h1, r1, c1)
         == EntryCounter(base, hq, seqlenQ, seqlenK, blockN, z2, h2, r2, c2)
        <==> z1 == z2 && h1 == h2 && r1 == r2 && c1 == c2
  {
    if EntryCounter(base, hq, seqlenQ, seqlenK, blockN, z1, h1, r1, c1)
       == EntryCounter(base, hq, seqlenQ, seqlenK, blockN, z2, h2, r2, c2) {
      TileMath.MixedRadixInjective((z1 * hq + h1) * seqlenQ + r1, c1, (z2 * hq + h2) * seqlenQ + r2, c2, seqlenK);
      TileMath.MixedRadixInjective(z1 * hq + h1, r1, z2 * hq + h2, r2, seqlenQ);
      TileMath.MixedRadixInjective(z1, h1, z2, h2, hq);
    }
  }

  /**
   * The per-(batch, head) offset uses the lengths of the program's own batch
   * element, so with packed sequences of different lengths the counter
   * ranges of different batch elements can overlap: here batch element 0
   * (lengths 2 and 2) and batch element 1 (lengths 1 and 1) of a one-head
   * launch draw the same counter for different entries.
   */
  lemma VarlenCountersOverlap(base: int, blockN: nat)
    ensures EntryCounter(base, 1, 2, 2, blockN, 0, 0, 0, 1) == EntryCounter(base, 1, 1, 1, blockN, 1, 0, 0, 0)
  {
  }
}
