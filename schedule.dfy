/**
 * The key-tile schedule of one program instance: the inner loop over key
 * tiles, the two calls of it (full tiles, then masked tiles) and the
 * program's outcome.
 *
 * The online-softmax state (`acc`, `l_i`, `m_i`) and its per-tile update are
 * floating point and are kept opaque: the state is a type parameter `A` and
 * one tile's update is a function `step` of the state and of what the loop
 * hands it for that tile (a TileInput). Whatever `step` is, the schedule is
 * proved to feed it exactly the tiles the reference masking would, in the
 * same order.
 */
module Schedule {
  import opened Wrappers
  import opened TileMath
  import opened TilePlan
  import opened Masks
  import opened SequenceIndex
  import HeadGroup
  import Dropout

  /** The device's `//` on integers truncates toward zero. */
  const DeviceRounding := TowardZero

  /** A block pointer reduced to its base address and its offset along the key axis. */
  datatype BlockPtr = BlockPtr(base: int, offset: int)

  /** What one iteration of the inner loop works on. */
  datatype TileInput = TileInput(
    startN: int,                // key offset of the tile
    q: BlockPtr,                // Q_block_ptr: base and first query row (loaded once, used by every tile)
    k: BlockPtr,                // K_block_ptr (key axis is its second axis)
    v: BlockPtr,                // V_block_ptr (key axis is its first axis)
    biasCol: Option<int>,       // key offset of bias_ptr, when there is a bias
    philoxOffset: Option<int>,  // first dropout counter of the tile, when dropout is on
    keep: seq<seq<bool>>)       // BLOCK_M x BLOCK_N: the score entries the masks leave finite

  /** The state after feeding `tiles` to `step`, first tile first. */
  function Fold<A>(step: (A, TileInput) -> A, acc: A, tiles: seq<TileInput>): A
    decreases |tiles|
  {
    if tiles == [] then acc else step(Fold(step, acc, tiles[..|tiles| - 1]), tiles[|tiles| - 1])
  }

  /** Feeding two runs of tiles one after the other is feeding their concatenation. */
  lemma {:induction false} FoldAppend<A>(step: (A, TileInput) -> A, acc: A, xs: seq<TileInput>, ys: seq<TileInput>)
    ensures Fold(step, acc, xs + ys) == Fold(step, Fold(step, acc, xs), ys)
    decreases |ys|
  {
    if ys == [] {
      assert xs + ys == xs;
    } else {
      var init := ys[..|ys| - 1];
      assert (xs + ys)[..|xs + ys| - 1] == xs + init;
      assert (xs + ys)[|xs + ys| - 1] == ys[|ys| - 1];
      FoldAppend(step, acc, xs, init);
    }
  }

  /**
   * `range(lo, hi, n)`: the starts `lo, lo + n, ...` strictly below hi, and
   * enough of them to reach hi.
   */
  function TileStarts(lo: int, hi: int, n: int): (s: seq<int>)
    requires n > 0
    ensures forall i | 0 <= i < |s| :: s[i] == lo + i * n && s[i] < hi
    ensures hi <= lo + |s| * n
  {
    var count := if hi <= lo then 0 else CDiv(hi - lo, n, Floor);
    assert forall i | 0 <= i < count :: lo + i * n < hi by {
      forall i | 0 <= i < count
        ensures lo + i * n < hi
      {
        MulLeq(i + 1, count, n);
        assert (i + 1) * n == i * n + n;
      }
    }
    seq(count, i requires 0 <= i < count => lo + i * n)
  }

  /** The tile starts of a range of whole tiles `[a * n, b * n)` are `a * n, ..., (b - 1) * n`. */
  lemma TileStartsOfMultiples(a: nat, b: nat, n: int)
    requires n > 0 && a <= b
    ensures |TileStarts(a * n, b * n, n)| == b - a
  {
    var s := TileStarts(a * n, b * n, n);
    MulLeq(a, b, n);
    if a < b {
      assert b * n - a * n == (b - a) * n;
      CDivOfMultiple(b - a, n, Floor);
    } else {
      assert a * n == b * n;
    }
  }

  /** The starts of `[0, a * n)` followed by those of `[a * n, b * n)` are the starts of `[0, b * n)`. */
  lemma TileStartsSplit(a: nat, b: nat, n: int)
    requires n > 0 && a <= b
    ensures TileStarts(0, a * n, n) + TileStarts(a * n, b * n, n) == TileStarts(0, b * n, n)
  {
    TileStartsOfMultiples(0, a, n);
    TileStartsOfMultiples(a, b, n);
    TileStartsOfMultiples(0, b, n);
    var s1, s2, s := TileStarts(0, a * n, n), TileStarts(a * n, b * n, n), TileStarts(0, b * n, n);
    forall i | 0 <= i < b
      ensures (s1 + s2)[i] == s[i]
    {
      if a <= i {
        SplitStartAgrees(a, b, n, i);
      }
    }
    assert s1 + s2 == s;
  }

  /** Element `i - a` of the starts of `[a * n, b * n)` is element i of the starts of `[0, b * n)`. */
  lemma SplitStartAgrees(a: nat, b: nat, n: int, i: int)
    requires n > 0 && a <= i < b
    requires |TileStarts(a * n, b * n, n)| == b - a && |TileStarts(0, b * n, n)| == b
    ensures TileStarts(a * n, b * n, n)[i - a] == TileStarts(0, b * n, n)[i]
  {
    AddMul(a, i - a, n);
  }

  /** Consecutive tile starts are one tile apart, and the last one is within a tile of hi. */
  lemma TileStartsNext(lo: int, hi: int, n: int, t: int)
    requires n > 0 && 0 <= t < |TileStarts(lo, hi, n)|
    ensures var s := TileStarts(lo, hi, n);
            && (t + 1 < |s| ==> s[t + 1] == s[t] + n)
            && (t + 1 == |s| ==> hi <= s[t] + n)
  {
    AddMul(t, 1, n);
  }

  /** The per-program values the inner loop reads but never changes. */
  datatype Setup = Setup(p: Program, q: BlockPtr, kBase: int, vBase: int, hasBias: bool, dropBase: Option<int>)

  /** The arguments of one call of the inner loop that shape the tiles it visits. */
  datatype Phase = Phase(blockMin: int, blockMax: int, k: BlockPtr, v: BlockPtr, biasCol: Option<int>, args: MaskArgs)

  function Shift(col: Option<int>, d: int): Option<int>
  {
    if col.Some? then Some(col.value + d) else None
  }

  /** The first dropout counter of the tile at key offset s, when dropout is on. */
  function TileCounter(su: Setup, s: int): Option<int>
  {
    if su.dropBase.Some?
    then Some(Dropout.TilePhiloxOffset(su.dropBase.value, su.p.startM, su.p.blockM, su.p.seqlenK, s, su.p.blockN))
    else None
  }

  /** The keep-matrix the inner loop builds for the tile at key offset s. */
  function KeepMatrix(p: Program, a: MaskArgs, s: int): seq<seq<bool>>
  {
    seq(p.blockM, i => seq(p.blockN, j => AppliedKeep(p, a, s, i, j)))
  }

  /** The reference keep-matrix: UniformKeep at every entry of the tile. */
  function UniformMatrix(p: Program, s: int): seq<seq<bool>>
  {
    seq(p.blockM, i => seq(p.blockN, j => UniformKeep(p, p.FirstRow() + i, s + j)))
  }

  /** The tile the call `ph` hands to `step` at key offset s, its pointers advanced by `s - blockMin`. */
  function TileAt(su: Setup, ph: Phase, s: int): TileInput
  {
    var d := s - ph.blockMin;
    TileInput(s, su.q, BlockPtr(ph.k.base, ph.k.offset + d), BlockPtr(ph.v.base, ph.v.offset + d),
              Shift(ph.biasCol, d), TileCounter(su, s), KeepMatrix(su.p, ph.args, s))
  }

  function PhaseInputs(su: Setup, ph: Phase, starts: seq<int>): seq<TileInput>
  {
    seq(|starts|, i requires 0 <= i < |starts| => TileAt(su, ph, starts[i]))
  }

  /** The reference tile at key offset s: pointers at s, every mask applied everywhere. */
  function UniformTile(su: Setup, s: int): TileInput
  {
    TileInput(s, su.q, BlockPtr(su.kBase, s), BlockPtr(su.vBase, s),
              if su.hasBias then Some(s) else None, TileCounter(su, s), UniformMatrix(su.p, s))
  }

  function UniformInputs(su: Setup, starts: seq<int>): seq<TileInput>
  {
    seq(|starts|, i requires 0 <= i < |starts| => UniformTile(su, starts[i]))
  }

  lemma FoldSnoc<A>(step: (A, TileInput) -> A, acc: A, xs: seq<TileInput>, x: TileInput)
    ensures Fold(step, acc, xs + [x]) == step(Fold(step, acc, xs), x)
  {
    assert (xs + [x])[..|xs|] == xs;
  }

  /** One more iteration of a call feeds one more tile: the one at the next start. */
  lemma FoldPhaseStep<A>(step: (A, TileInput) -> A, acc0: A, su: Setup, ph: Phase, starts: seq<int>, t: nat, tile: TileInput)
    requires t < |starts| && tile == TileAt(su, ph, starts[t])
    ensures Fold(step, acc0, PhaseInputs(su, ph, starts[..t + 1])) == step(Fold(step, acc0, PhaseInputs(su, ph, starts[..t])), tile)
  {
    assert PhaseInputs(su, ph, starts[..t + 1]) == PhaseInputs(su, ph, starts[..t]) + [tile];
    FoldSnoc(step, acc0, PhaseInputs(su, ph, starts[..t]), tile);
  }

  /** The K, V and bias pointers of call `ph` once they have been advanced to key offset s. */
  predicate PointersAt(ph: Phase, kPtr: BlockPtr, vPtr: BlockPtr, biasCol: Option<int>, s: int)
  {
    var d := s - ph.blockMin;
    kPtr == BlockPtr(ph.k.base, ph.k.offset + d) && vPtr == BlockPtr(ph.v.base, ph.v.offset + d)
    && biasCol == Shift(ph.biasCol, d)
  }

  /** The tile a call hands over is built from its pointers as advanced to the tile's offset. */
  lemma TileAtPointers(su: Setup, ph: Phase, s: int, kPtr: BlockPtr, vPtr: BlockPtr, biasCol: Option<int>)
    requires PointersAt(ph, kPtr, vPtr, biasCol, s)
    ensures TileAt(su, ph, s) == TileInput(s, su.q, kPtr, vPtr, biasCol, TileCounter(su, s), KeepMatrix(su.p, ph.args, s))
  {
  }

  /**
   * The invariant of the inner loop after t iterations: startN is the t-th
   * tile start (or past blockMax once all are done), the pointers have been
   * advanced to it, and the state has been fed the first t tiles.
   */
  ghost predicate InnerInv<A>(step: (A, TileInput) -> A, acc0: A, su: Setup, ph: Phase, t: nat, startN: int,
                              kPtr: BlockPtr, vPtr: BlockPtr, biasCol: Option<int>, acc: A)
    requires su.p.blockN > 0
  {
    var starts := TileStarts(ph.blockMin, ph.blockMax, su.p.blockN);
    && t <= |starts|
    && (t < |starts| ==> starts[t] == startN)
    && (t == |starts| ==> ph.blockMax <= startN)
    && PointersAt(ph, kPtr, vPtr, biasCol, startN)
    && acc == Fold(step, acc0, PhaseInputs(su, ph, starts[..t]))
  }

  /** One iteration of the inner loop keeps its invariant. */
  lemma InnerStep<A>(step: (A, TileInput) -> A, acc0: A, su: Setup, ph: Phase, t: nat, startN: int,
                     kPtr: BlockPtr, vPtr: BlockPtr, biasCol: Option<int>, acc: A, tile: TileInput)
    requires su.p.blockN > 0 && startN < ph.blockMax
    requires InnerInv(step, acc0, su, ph, t, startN, kPtr, vPtr, biasCol, acc)
    requires tile == TileInput(startN, su.q, kPtr, vPtr, biasCol, TileCounter(su, startN), KeepMatrix(su.p, ph.args, startN))
    ensures InnerInv(step, acc0, su, ph, t + 1, startN + su.p.blockN,
                     BlockPtr(kPtr.base, kPtr.offset + su.p.blockN), BlockPtr(vPtr.base, vPtr.offset + su.p.blockN),
                     Shift(biasCol, su.p.blockN), step(acc, tile))
  {
    var starts := TileStarts(ph.blockMin, ph.blockMax, su.p.blockN);
    TileStartsNext(ph.blockMin, ph.blockMax, su.p.blockN, t);
    TileAtPointers(su, ph, startN, kPtr, vPtr, biasCol);
    FoldPhaseStep(step, acc0, su, ph, starts, t, tile);
  }

  /** Before the first iteration the invariant holds with no tile fed. */
  lemma InnerStart<A>(step: (A, TileInput) -> A, acc0: A, su: Setup, ph: Phase)
    requires su.p.blockN > 0
    ensures InnerInv(step, acc0, su, ph, 0, ph.blockMin, ph.k, ph.v, ph.biasCol, acc0)
  {
    var starts := TileStarts(ph.blockMin, ph.blockMax, su.p.blockN);
    assert starts[..0] == [];
  }

  /** Once the loop leaves, the state has been fed every tile of the call. */
  lemma InnerDone<A>(step: (A, TileInput) -> A, acc0: A, su: Setup, ph: Phase, t: nat, startN: int,
                     kPtr: BlockPtr, vPtr: BlockPtr, biasCol: Option<int>, acc: A)
    requires su.p.blockN > 0 && ph.blockMax <= startN
    requires InnerInv(step, acc0, su, ph, t, startN, kPtr, vPtr, biasCol, acc)
    ensures acc == Fold(step, acc0, PhaseInputs(su, ph, TileStarts(ph.blockMin, ph.blockMax, su.p.blockN)))
  {
    var starts := TileStarts(ph.blockMin, ph.blockMax, su.p.blockN);
    assert starts[..t] == starts;
  }

  /**
   * The inner loop (`_attn_fwd_inner`): for each start in
   * `range(block_min, block_max, BLOCK_N)`, build the tile's mask and
   * dropout counter, update the state, and advance the K, V and bias
   * pointers by one tile. The result is the state after feeding exactly the
   * tiles at those starts, in ascending order, each once.
   */
  method AttnFwdInner<A>(acc0: A, step: (A, TileInput) -> A, su: Setup, ph: Phase) returns (acc: A)
    requires su.p.blockN > 0
    ensures acc == Fold(step, acc0, PhaseInputs(su, ph, TileStarts(ph.blockMin, ph.blockMax, su.p.blockN)))
  {
    var n := su.p.blockN;
    acc := acc0;
    var kPtr, vPtr, biasCol := ph.k, ph.v, ph.biasCol;
    var startN := ph.blockMin;
    ghost var t := 0;
    InnerStart(step, acc0, su, ph);
    while startN < ph.blockMax
      invariant InnerInv(step, acc0, su, ph, t, startN, kPtr, vPtr, biasCol, acc)
      decreases ph.blockMax - startN
    {
      var philox := TileCounter(su, startN);
      var keep := KeepMatrix(su.p, ph.args, startN);
      var tile := TileInput(startN, su.q, kPtr, vPtr, biasCol, philox, keep);
      InnerStep(step, acc0, su, ph, t, startN, kPtr, vPtr, biasCol, acc, tile);
      acc := step(acc, tile);
      kPtr := BlockPtr(kPtr.base, kPtr.offset + n);
      vPtr := BlockPtr(vPtr.base, vPtr.offset + n);
      biasCol := Shift(biasCol, n);
      startN := startN + n;
      t := t + 1;
    }
    InnerDone(step, acc0, su, ph, t, startN, kPtr, vPtr, biasCol, acc);
  }

  /** The first call: the full tiles `[0, n_full_blocks * BLOCK_N)`, pointers at key 0, no masking. */
  function FullPhase(su: Setup, plan: Plan): Phase
    requires plan.Tiles?
  {
    var n := su.p.blockN;
    Phase(0, plan.FullBlocks() * n, BlockPtr(su.kBase, 0), BlockPtr(su.vBase, 0),
          if su.hasBias then Some(0) else None, FullPhaseArgs(su.p, plan))
  }

  /**
   * The second call: the masked tiles `[n_full_blocks * BLOCK_N, n_blocks * BLOCK_N)`,
   * pointers advanced by `n_full_blocks * BLOCK_N`, boundary and causal masking.
   */
  function MaskedPhase(su: Setup, plan: Plan): Phase
    requires plan.Tiles?
  {
    var n := su.p.blockN;
    var d := plan.FullBlocks() * n;
    Phase(d, plan.nBlocks * n, BlockPtr(su.kBase, d), BlockPtr(su.vBase, d),
          if su.hasBias then Some(d) else None, MaskedPhaseArgs(su.p, plan))
  }

  /** A full tile is handed over exactly as the reference tile at the same offset. */
  lemma FullTileUniform(su: Setup, rnd: Rounding, t: int)
    requires su.p.Valid() && PlanFor(su.p, rnd).Tiles?
    requires 0 <= t < PlanFor(su.p, rnd).FullBlocks()
    ensures TileAt(su, FullPhase(su, PlanFor(su.p, rnd)), t * su.p.blockN) == UniformTile(su, t * su.p.blockN)
  {
    var p, plan := su.p, PlanFor(su.p, rnd);
    var n, s := p.blockN, t * p.blockN;
    MulLeq(t + 1, plan.FullBlocks(), n);
    assert (t + 1) * n == s + n;
    forall i | 0 <= i < p.blockM
      ensures KeepMatrix(p, FullPhaseArgs(p, plan), s)[i] == UniformMatrix(p, s)[i]
    {
      forall j | 0 <= j < n
        ensures KeepMatrix(p, FullPhaseArgs(p, plan), s)[i][j] == UniformMatrix(p, s)[i][j]
      {
        FullTilesNeedNoMask(p, rnd, p.FirstRow() + i, s + j);
      }
    }
  }

  /** A masked tile is handed over exactly as the reference tile at the same offset. */
  lemma MaskedTileUniform(su: Setup, rnd: Rounding, t: int)
    requires su.p.Valid() && PlanFor(su.p, rnd).Tiles?
    requires PlanFor(su.p, rnd).FullBlocks() <= t < PlanFor(su.p, rnd).nBlocks
    ensures TileAt(su, MaskedPhase(su, PlanFor(su.p, rnd)), t * su.p.blockN) == UniformTile(su, t * su.p.blockN)
  {
    var p, plan := su.p, PlanFor(su.p, rnd);
    var n, s := p.blockN, t * p.blockN;
    forall i | 0 <= i < p.blockM
      ensures KeepMatrix(p, MaskedPhaseArgs(p, plan), s)[i] == UniformMatrix(p, s)[i]
    {
      forall j | 0 <= j < n
        ensures KeepMatrix(p, MaskedPhaseArgs(p, plan), s)[i][j] == UniformMatrix(p, s)[i][j]
      {
        MaskedTilesMatchUniform(p, rnd, t, i, j);
      }
    }
  }

  /** The first call hands over the reference tiles `0 .. n_full_blocks - 1`. */
  lemma FullInputsUniform(su: Setup, rnd: Rounding)
    requires su.p.Valid() && PlanFor(su.p, rnd).Tiles?
    ensures var plan := PlanFor(su.p, rnd);
            var s1 := TileStarts(0, plan.FullBlocks() * su.p.blockN, su.p.blockN);
            PhaseInputs(su, FullPhase(su, plan), s1) == UniformInputs(su, s1)
  {
    var plan := PlanFor(su.p, rnd);
    var n, nf := su.p.blockN, plan.FullBlocks();
    var s1 := TileStarts(0, nf * n, n);
    TileStartsOfMultiples(0, nf, n);
    forall i | 0 <= i < |s1|
      ensures TileAt(su, FullPhase(su, plan), s1[i]) == UniformTile(su, s1[i])
    {
      FullTileUniform(su, rnd, i);
    }
  }

  /** The second call hands over the reference tiles `n_full_blocks .. n_blocks - 1`. */
  lemma MaskedInputsUniform(su: Setup, rnd: Rounding)
    requires su.p.Valid() && PlanFor(su.p, rnd).Tiles?
    ensures var plan := PlanFor(su.p, rnd);
            var s2 := TileStarts(plan.FullBlocks() * su.p.blockN, plan.nBlocks * su.p.blockN, su.p.blockN);
            PhaseInputs(su, MaskedPhase(su, plan), s2) == UniformInputs(su, s2)
  {
    var plan := PlanFor(su.p, rnd);
    var n, nf, nb := su.p.blockN, plan.FullBlocks(), plan.nBlocks;
    var s2 := TileStarts(nf * n, nb * n, n);
    TileStartsOfMultiples(nf, nb, n);
    forall i | 0 <= i < |s2|
      ensures TileAt(su, MaskedPhase(su, plan), s2[i]) == UniformTile(su, s2[i])
    {
      AddMul(nf, i, n);
      MaskedTileUniform(su, rnd, nf + i);
    }
  }

  lemma UniformInputsAppend(su: Setup, s1: seq<int>, s2: seq<int>)
    ensures UniformInputs(su, s1) + UniformInputs(su, s2) == UniformInputs(su, s1 + s2)
  {
  }

  /**
   * Tile-plan equivalence: the full-tile call followed by the masked-tile
   * call feeds `step` exactly the reference tiles `0, N, ..., (n_blocks - 1) * N`,
   * in that order, each once, whatever `step` does.
   */
  lemma TwoPhaseMatchesUniform<A>(step: (A, TileInput) -> A, init: A, su: Setup, rnd: Rounding)
    requires su.p.Valid() && PlanFor(su.p, rnd).Tiles?
    ensures var plan := PlanFor(su.p, rnd);
            var n := su.p.blockN;
            (Fold(step, Fold(step, init, PhaseInputs(su, FullPhase(su, plan), TileStarts(0, plan.FullBlocks() * n, n))),
                  PhaseInputs(su, MaskedPhase(su, plan), TileStarts(plan.FullBlocks() * n, plan.nBlocks * n, n)))
             == Fold(step, init, UniformInputs(su, TileStarts(0, plan.nBlocks * n, n))))
  {
    var plan := PlanFor(su.p, rnd);
    var n, nf, nb := su.p.blockN, plan.FullBlocks(), plan.nBlocks;
    var s1, s2 := TileStarts(0, nf * n, n), TileStarts(nf * n, nb * n, n);
    TileStartsSplit(nf, nb, n);
    FullInputsUniform(su, rnd);
    MaskedInputsUniform(su, rnd);
    UniformInputsAppend(su, s1, s2);
    FoldAppend(step, init, UniformInputs(su, s1), UniformInputs(su, s2));
  }

  /**
   * The phase sequencing of `attn_fwd`: the inner loop over the full tiles
   * when there are any, then, when there are masked tiles, the inner loop
   * over them with the K, V and bias pointers advanced past the full tiles
   * and the masks switched on. The resulting state is the fold of `step`
   * over the reference tiles `0 .. n_blocks - 1`.
   */
  method RunPhases<A>(init: A, step: (A, TileInput) -> A, su: Setup, nb: nat, masked: nat, nExtra: int)
      returns (acc: A)
    requires su.p.Valid() && PlanFor(su.p, DeviceRounding) == Tiles(nb, masked, nExtra)
    ensures acc == Fold(step, init, UniformInputs(su, TileStarts(0, nb * su.p.blockN, su.p.blockN)))
  {
    ghost var plan := PlanFor(su.p, DeviceRounding);
    var n := su.p.blockN;
    var nFull := nb - masked;
    var kPtr, vPtr := BlockPtr(su.kBase, 0), BlockPtr(su.vBase, 0);
    var biasCol: Option<int> := if su.hasBias then Some(0) else None;
    acc := init;
    var blockMin, blockMax := 0, nb * n;
    if nFull > 0 {
      blockMax := nFull * n;
      var full := Phase(blockMin, blockMax, kPtr, vPtr, biasCol, MaskArgs(false, false, 0, 0, blockMax));
      assert full == FullPhase(su, plan);
      acc := AttnFwdInner(acc, step, su, full);
      blockMin := blockMax;
      blockMax := nb * n;
    } else {
      assert nFull * n == 0;
      assert TileStarts(0, nFull * n, n) == [];
    }
    ghost var accFull := acc;
    assert accFull == Fold(step, init, PhaseInputs(su, FullPhase(su, plan), TileStarts(0, nFull * n, n)));
    if masked > 0 {
      var causalShift := if su.p.causal then su.p.seqlenQ - su.p.seqlenK else 0;
      kPtr := BlockPtr(kPtr.base, kPtr.offset + nFull * n);
      vPtr := BlockPtr(vPtr.base, vPtr.offset + nFull * n);
      biasCol := Shift(biasCol, nFull * n);
      var maskedPhase := Phase(blockMin, blockMax, kPtr, vPtr, biasCol,
                               MaskArgs(true, su.p.causal, causalShift, nExtra, blockMax));
      assert maskedPhase == MaskedPhase(su, plan);
      acc := AttnFwdInner(acc, step, su, maskedPhase);
    } else {
      TileStartsOfMultiples(nFull, nb, n);
    }
    TwoPhaseMatchesUniform(step, init, su, DeviceRounding);
  }

  /**
   * Outcome of one program instance. A store records the base address of
   * the output block and the number of columns its block pointer declares
   * (the store checks both axes, so it writes no column at or beyond it).
   */
  datatype Output<A> =
    | NoWrite                                                  // packed mode, tile starts beyond the query sequence
    | ZeroTile(oBase: int, cols: nat)                          // causal early exit: a tile of zeros is stored
    | Written(acc: A, oBase: int, cols: nat, zeroBelow: Option<int>)  // rows before zeroBelow are cleared before the store

  /**
   * Whether a store of the output block of a tile starting at row
   * `firstRow`, into a tensor declared `(seqlenQ, cols)` with both axes
   * checked, writes tile-local element (i, d).
   */
  predicate StoreWrites(firstRow: int, seqlenQ: int, cols: nat, i: int, d: int)
  {
    0 <= firstRow + i < seqlenQ && 0 <= d < cols
  }

  /** Whether the stored row r is zero by construction. */
  predicate RowZeroed<A>(out: Output<A>, r: int)
  {
    out.ZeroTile? || (out.Written? && out.zeroBelow.Some? && r < out.zeroBelow.value)
  }

  /**
   * The rows a program clears are exactly the rows causal masking leaves
   * without a key: all of them on an early exit, the rows above the
   * diagonal start when the diagonal starts inside the tile.
   */
  lemma OutputRowsZeroed<A>(p: Program, out: Output<A>)
    requires p.Valid()
    requires out.ZeroTile? ==> p.causal && PlanFor(p, DeviceRounding).EarlyExit?
    requires out.Written? ==> PlanFor(p, DeviceRounding).Tiles?
    requires out.Written? ==> out.zeroBelow == if p.causal && p.FirstRow() < p.Diag() < p.EndRow() then Some(p.Diag()) else None
    requires !out.NoWrite?
    ensures forall r | p.FirstRow() <= r < p.EndRow() :: RowZeroed(out, r) <==> p.causal && !HasAllowedKey(p, r)
  {
    forall r | p.FirstRow() <= r < p.EndRow()
      ensures RowZeroed(out, r) <==> p.causal && !HasAllowedKey(p, r)
    {
      if p.causal {
        CausalZeroRows(p, DeviceRounding, r);
      }
    }
  }

  /** The launch-wide constants of the kernel. */
  datatype Config = Config(blockM: nat, blockN: nat, causal: bool, varlen: bool,
                           maxSeqlensQ: nat, maxSeqlensK: nat, hq: nat, hk: nat,
                           hasBias: bool, dropoutBase: Option<int>,
                           q: Strides, k: Strides, v: Strides, o: Strides,
                           blockD: nat, headSize: nat)  // BLOCK_DMODEL, ACTUAL_BLOCK_DMODEL
  {
    predicate Valid()
    {
      ValidBlocks(blockM, blockN) && hk > 0 && hq % hk == 0 && headSize <= blockD
    }
  }

  /** The per-program values once the sequences of batch element offZ are resolved. */
  function SetupFor(c: Config, startM: nat, offHQ: nat, offZ: nat, span: SeqSpan): Setup
    requires c.Valid() && offHQ < c.hq
  {
    var p := Program(c.blockM, c.blockN, startM, span.seqlenQ, span.seqlenK, c.causal);
    var kv := HeadGroup.KvHead(offHQ, c.hq, c.hk);
    Setup(p, BlockPtr(BaseOffset(offZ, offHQ, span.startQ, c.q), startM * c.blockM),
          BaseOffset(offZ, kv, span.startK, c.k), BaseOffset(offZ, kv, span.startK, c.v), c.hasBias,
          if c.dropoutBase.Some?
          then Some(Dropout.BatchPhiloxOffset(c.dropoutBase.value, offZ, c.hq, offHQ, span.seqlenQ, span.seqlenK))
          else None)
  }

  /**
   * Every tile a program hands to `step` carries the program's own query
   * block (query head offHQ, rows from startM * BLOCK_M of its sequence) and
   * the K and V blocks of the key/value head of its group, at the tile's key
   * offset.
   */
  lemma TilesReadOwnHeads(c: Config, startM: nat, offHQ: nat, offZ: nat, span: SeqSpan, starts: seq<int>)
    requires c.Valid() && offHQ < c.hq
    ensures var kv := HeadGroup.KvHead(offHQ, c.hq, c.hk);
            var tiles := UniformInputs(SetupFor(c, startM, offHQ, offZ, span), starts);
            forall i | 0 <= i < |tiles| ::
              && tiles[i].q == BlockPtr(BaseOffset(offZ, offHQ, span.startQ, c.q), startM * c.blockM)
              && tiles[i].k == BlockPtr(BaseOffset(offZ, kv, span.startK, c.k), starts[i])
              && tiles[i].v == BlockPtr(BaseOffset(offZ, kv, span.startK, c.v), starts[i])
  {
  }

  /**
   * On an equal-length batch whose sequences have the configured maximum
   * lengths, a packed-mode program that is not stopped works on the same
   * Program as the fixed-length program of the same tile, head and batch
   * element, and so follows the same plan and masks; only the base
   * addresses differ.
   */
  lemma PackedPlanMatchesFixed(c: Config, startM: nat, offHQ: nat, offZ: nat, cuQ: seq<int>, cuK: seq<int>, rnd: Rounding)
    requires c.Valid() && offHQ < c.hq
    requires offZ + 1 < |cuQ| && offZ + 1 < |cuK|
    requires forall i | 0 <= i < |cuQ| :: cuQ[i] == i * c.maxSeqlensQ
    requires forall i | 0 <= i < |cuK| :: cuK[i] == i * c.maxSeqlensK
    ensures TablesCover(cuQ, cuK, offZ)
    ensures var packed := ResolveSequence(true, cuQ, cuK, offZ, c.maxSeqlensQ, c.maxSeqlensK, startM, c.blockM);
            var fixed := ResolveSequence(false, cuQ, cuK, offZ, c.maxSeqlensQ, c.maxSeqlensK, startM, c.blockM);
            packed.Some? ==>
              var pp := SetupFor(c, startM, offHQ, offZ, packed.value).p;
              var fp := SetupFor(c, startM, offHQ, offZ, fixed.value).p;
              pp == fp && PlanFor(pp, rnd) == PlanFor(fp, rnd)
  {
    PackedMatchesFixed(cuQ, cuK, offZ, c.maxSeqlensQ, c.maxSeqlensK, startM, c.blockM);
  }

  /**
   * One program instance (`attn_fwd` for query tile startM of query head
   * offHQ of batch element offZ). It does nothing when its tile starts
   * beyond a packed query sequence; it stores a zero tile exactly when the
   * plan is a causal early exit; otherwise its state is the fold of `step`
   * over the reference tiles `0 .. n_blocks - 1`, which carry the Q block of
   * query head offHQ at row startM * BLOCK_M, the output goes to the
   * query head's own base address, and a row of the tile is cleared exactly
   * when causal masking leaves it no key.
   */
  method AttnFwd<A>(c: Config, startM: nat, offHQ: nat, offZ: nat, cuQ: seq<int>, cuK: seq<int>,
                    init: A, step: (A, TileInput) -> A) returns (out: Output<A>)
    requires c.Valid() && offHQ < c.hq
    requires c.varlen ==> TablesCover(cuQ, cuK, offZ)
    ensures var span := ResolveSequence(c.varlen, cuQ, cuK, offZ, c.maxSeqlensQ, c.maxSeqlensK, startM, c.blockM);
      && (out.NoWrite? <==> span.None?)
      && (span.Some? ==>
            var su := SetupFor(c, startM, offHQ, offZ, span.value);
            var plan := PlanFor(su.p, DeviceRounding);
            && (out.ZeroTile? <==> plan.EarlyExit?)
            && su.q == BlockPtr(BaseOffset(offZ, offHQ, span.value.startQ, c.q), startM * c.blockM)
            && (out.ZeroTile? || out.Written? ==> out.oBase == BaseOffset(offZ, offHQ, span.value.startQ, c.o))
            && (out.ZeroTile? ==> out.cols == c.blockD)
            && (out.Written? ==> out.cols == c.headSize)
            && (out.Written? ==>
                  plan.Tiles? && out.acc == Fold(step, init, UniformInputs(su, TileStarts(0, plan.nBlocks * c.blockN, c.blockN))))
            && (forall r | su.p.FirstRow() <= r < su.p.EndRow() :: RowZeroed(out, r) <==> c.causal && !HasAllowedKey(su.p, r)))
  {
    var span := ResolveSequence(c.varlen, cuQ, cuK, offZ, c.maxSeqlensQ, c.maxSeqlensK, startM, c.blockM);
    if span.None? {
      return NoWrite;
    }
    var sp := span.value;
    var su := SetupFor(c, startM, offHQ, offZ, sp);
    var p := su.p;
    var oBase := BaseOffset(offZ, offHQ, sp.startQ, c.o);
    var nb := NBlocks(p, DeviceRounding);
    if c.causal && nb <= 0 {
      out := ZeroTile(oBase, c.blockD);
      OutputRowsZeroed(p, out);
      return;
    }
    var nExtra := NExtraTokens(sp.seqlenK, c.blockN);
    var masked := MaskedBlocks(p, nb);
    assert PlanFor(p, DeviceRounding) == Tiles(nb, masked, nExtra);
    var acc := RunPhases(init, step, su, nb, masked, nExtra);
    var startIdx, endIdx, causalStartIdx := p.FirstRow(), p.EndRow(), p.Diag();
    var zeroBelow := if c.causal && startIdx < causalStartIdx < endIdx then Some(causalStartIdx) else None;
    out := Written(acc, oBase, c.headSize, zeroBelow);
    OutputRowsZeroed(p, out);
  }

  /**
   * The early-exit store as written declares BLOCK_DMODEL columns, the final
   * store ACTUAL_BLOCK_DMODEL. With one head of size 40, which the wrapper
   * pads to 256 (Launch.PaddedWidthSkipsSmaller), causal masking, 32
   * queries, 16 keys and BLOCK_M = BLOCK_N = 16, query tile 0
   * exits early and its zero tile writes column 40 of row 15, which in the
   * packed output is column 0 of row 16; query tile 1 does not exit, row 16
   * has an allowed key, and the final store of tile 1 writes that element.
   */
  lemma EarlyExitStoreOverlaps()
    ensures PlanFor(OverlapTile(0), DeviceRounding).EarlyExit? && PlanFor(OverlapTile(1), DeviceRounding).Tiles?
    ensures StoreWrites(OverlapTile(0).FirstRow(), OverlapTile(0).seqlenQ, 256, 15, 40)
    ensures StoreWrites(OverlapTile(1).FirstRow(), OverlapTile(1).seqlenQ, 40, 0, 0)
    ensures OverlapTile(0).FirstRow() + 15 == 15 && OverlapTile(1).FirstRow() + 0 == 16
    ensures ElementOffset(BaseOffset(0, 0, 0, PackedView(40, 40, 1)), 15, 40, PackedView(40, 40, 1))
         == ElementOffset(BaseOffset(0, 0, 0, PackedView(40, 40, 1)), 16, 0, PackedView(40, 40, 1))
    ensures HasAllowedKey(OverlapTile(1), OverlapTile(1).FirstRow()) && !ZeroedAfterNormalise(OverlapTile(1), OverlapTile(1).FirstRow())
  {
    OverlapPlans();
    OverlapStores();
    OverlapAddress();
    OverlapRowLive();
  }

  /** Column 40 of row 15 of a one-head output of head size 40 is column 0 of row 16. */
  lemma OverlapAddress()
    ensures var v := PackedView(40, 40, 1);
            ElementOffset(BaseOffset(0, 0, 0, v), 15, 40, v) == ElementOffset(BaseOffset(0, 0, 0, v), 16, 0, v)
  {
  }

  /** Query tile m of the program in EarlyExitStoreOverlaps: 32 queries, 16 keys, causal, 16 x 16 tiles. */
  function OverlapTile(m: nat): (p: Program)
    ensures p.Valid() && p.seqlenQ == 32 && p.Diag() == 16
  {
    Program(16, 16, m, 32, 16, true)
  }

  /** In that program query tile 0 exits early and query tile 1 does not. */
  lemma OverlapPlans()
    ensures PlanFor(OverlapTile(0), DeviceRounding).EarlyExit? && PlanFor(OverlapTile(1), DeviceRounding).Tiles?
  {
    assert OverlapTile(0).EndRow() == 16 && OverlapTile(1).EndRow() == 32;
    assert CausalKeyLimit(OverlapTile(0)) == 0 && CausalKeyLimit(OverlapTile(1)) == 16;
  }

  /** Query tile 0 starts at row 0 and query tile 1 at row 16; both stores reach the rows and columns named. */
  lemma OverlapStores()
    ensures OverlapTile(0).FirstRow() + 15 == 15 && OverlapTile(1).FirstRow() + 0 == 16
    ensures StoreWrites(OverlapTile(0).FirstRow(), OverlapTile(0).seqlenQ, 256, 15, 40)
    ensures StoreWrites(OverlapTile(1).FirstRow(), OverlapTile(1).seqlenQ, 40, 0, 0)
  {
    assert OverlapTile(0).FirstRow() == 0 && OverlapTile(1).FirstRow() == 16;
  }

  /** Row 16, the first row of query tile 1, may see key 0 and is not cleared. */
  lemma OverlapRowLive()
    ensures HasAllowedKey(OverlapTile(1), OverlapTile(1).FirstRow()) && !ZeroedAfterNormalise(OverlapTile(1), OverlapTile(1).FirstRow())
  {
    var p := OverlapTile(1);
    assert p.FirstRow() == 16 && p.EndRow() == 32;
    assert UniformKeep(p, 16, 0);
  }

  /**
   * With every store clipped to ACTUAL_BLOCK_DMODEL columns, as the final
   * store is, no two programs write the same element of a contiguous packed
   * output: elements written by the programs (z1, h1, m1) and (z2, h2, m2)
   * share an address only if they are the same (batch element, head, row,
   * column).
   */
  lemma ClippedStoresDisjoint(cu: seq<int>, nheads: nat, headSize: nat, blockM: nat,
                              z1: nat, h1: nat, m1: nat, i1: int, d1: int,
                              z2: nat, h2: nat, m2: nat, i2: int, d2: int)
    requires Monotone(cu) && z1 + 1 < |cu| && z2 + 1 < |cu| && h1 < nheads && h2 < nheads
    requires StoreWrites(m1 * blockM, cu[z1 + 1] - cu[z1], headSize, i1, d1)
    requires StoreWrites(m2 * blockM, cu[z2 + 1] - cu[z2], headSize, i2, d2)
    ensures var v := PackedView(nheads * headSize, headSize, 1);
            ElementOffset(BaseOffset(z1, h1, cu[z1], v), m1 * blockM + i1, d1, v)
              == ElementOffset(BaseOffset(z2, h2, cu[z2], v), m2 * blockM + i2, d2, v)
            <==> z1 == z2 && h1 == h2 && m1 * blockM + i1 == m2 * blockM + i2 && d1 == d2
  {
    var r1: nat, r2: nat := m1 * blockM + i1, m2 * blockM + i2;
    PackedAddress(z1, h1, cu[z1], r1, d1, nheads, headSize);
    PackedAddress(z2, h2, cu[z2], r2, d2, nheads, headSize);
    PackedElementsDisjoint(cu, nheads, headSize, z1, h1, r1, d1 as nat, z2, h2, r2, d2 as nat);
  }
}
