/**
 * `load_fn`: a block load whose boundary checks are switched on per axis.
 * An element inside the tensor is read; an element outside it is
 * zero-filled when the load checks the axis it falls off; otherwise the
 * load reaches outside the tensor.
 */
module Loads {
  import opened TileMath
  import opened TilePlan
  import opened Masks

  datatype Access = Read | ZeroFilled | OutOfBounds

  /**
   * Element (r, c) of a block loaded from a (rows, cols) tensor, checking
   * axis 0 when `first` and axis 1 when `second`. It is read exactly when
   * it lies inside the tensor, and reaches outside the tensor exactly when
   * it falls off only unchecked axes.
   */
  function LoadFn(first: bool, second: bool, rows: int, cols: int, r: int, c: int): (a: Access)
    ensures a == Read <==> 0 <= r < rows && 0 <= c < cols
    ensures a == OutOfBounds <==>
      && !(0 <= r < rows && 0 <= c < cols)
      && (first ==> 0 <= r < rows)
      && (second ==> 0 <= c < cols)
  {
    var inRows, inCols := 0 <= r < rows, 0 <= c < cols;
    if first && second then
      if inRows && inCols then Read else ZeroFilled
    else if first then
      if !inRows then ZeroFilled else if inCols then Read else OutOfBounds
    else if second then
      if !inCols then ZeroFilled else if inRows then Read else OutOfBounds
    else
      if inRows && inCols then Read else OutOfBounds
  }

  /** Whether a call of the inner loop checks the key axis: only a masked call with ragged keys does. */
  predicate KeyAxisChecked(masked: bool, nExtra: int)
  {
    masked && nExtra != 0
  }

  /** The tile indices a call visits: the masked ones or the full ones. */
  predicate VisitedBy(plan: Plan, masked: bool, t: int)
    requires plan.Tiles?
  {
    if masked then plan.FullBlocks() <= t < plan.nBlocks else 0 <= t < plan.FullBlocks()
  }

  /** On a tile some call visits, a key column the call does not check exists. */
  lemma UncheckedKeysExist(p: Program, rnd: Rounding, masked: bool, t: int, j: int)
    requires p.Valid() && PlanFor(p, rnd).Tiles?
    requires VisitedBy(PlanFor(p, rnd), masked, t) && 0 <= j < p.blockN
    requires !KeyAxisChecked(masked, PlanFor(p, rnd).nExtra)
    ensures 0 <= t * p.blockN + j < p.seqlenK
  {
    var plan := PlanFor(p, rnd);
    MulLeq(0, t, p.blockN);
    if masked {
      LastTileAligned(p, rnd);
      MulLeq(t + 1, plan.nBlocks, p.blockN);
      AddMul(t, 1, p.blockN);
    } else {
      MulLeq(t + 1, plan.FullBlocks(), p.blockN);
      AddMul(t, 1, p.blockN);
      FullTilesNeedNoMask(p, rnd, p.FirstRow(), t * p.blockN + j);
    }
  }

  /**
   * The K and V loads of the inner loop never reach outside their tensors:
   * K is a (head width, key length) tensor loaded with the head axis checked
   * when the head is padded, V its transpose; on every visited tile, at
   * every head index below BLOCK_DMODEL and every key column of the tile,
   * the load reads or zero-fills.
   */
  lemma KeyValueLoadsInBounds(p: Program, rnd: Rounding, actualD: nat, blockD: nat,
                              masked: bool, t: int, d: int, j: int)
    requires p.Valid() && PlanFor(p, rnd).Tiles?
    requires actualD <= blockD && 0 <= d < blockD
    requires VisitedBy(PlanFor(p, rnd), masked, t) && 0 <= j < p.blockN
    ensures var keyCheck := KeyAxisChecked(masked, PlanFor(p, rnd).nExtra);
            && LoadFn(actualD != blockD, keyCheck, actualD, p.seqlenK, d, t * p.blockN + j) != OutOfBounds
            && LoadFn(keyCheck, actualD != blockD, p.seqlenK, actualD, t * p.blockN + j, d) != OutOfBounds
  {
    if !KeyAxisChecked(masked, PlanFor(p, rnd).nExtra) {
      UncheckedKeysExist(p, rnd, masked, t, j);
    }
  }

  /** The Q load checks the query axis always and the head axis when padded: it never reaches outside. */
  lemma QueryLoadInBounds(p: Program, actualD: nat, blockD: nat, i: int, d: int)
    requires actualD <= blockD && 0 <= d < blockD
    ensures LoadFn(true, actualD != blockD, p.seqlenQ, actualD, p.FirstRow() + i, d) != OutOfBounds
  {
  }

  /**
   * The bias load as written: the key axis is checked like K's, the query
   * axis never, although the bias block has BLOCK_M rows starting at
   * `start_m * BLOCK_M` of a tensor with `seqlen_q` rows.
   */
  function BiasAccess(p: Program, keyCheck: bool, i: int, c: int): (a: Access)
    ensures 0 <= c < p.seqlenK ==> (a == OutOfBounds <==> !(0 <= p.FirstRow() + i < p.seqlenQ))
  {
    LoadFn(false, keyCheck, p.seqlenQ, p.seqlenK, p.FirstRow() + i, c)
  }

  /**
   * The bias load reaches past the last query row: with one query and one
   * key, BLOCK_M = BLOCK_N = 16 and no causal masking, the single tile is
   * visited and row 1 of its bias block lies outside the tensor.
   */
  lemma BiasRowsUnchecked()
    ensures var p := Program(16, 16, 0, 1, 1, false);
            && p.Valid() && PlanFor(p, TowardZero).Tiles? && VisitedBy(PlanFor(p, TowardZero), true, 0)
            && BiasAccess(p, KeyAxisChecked(true, PlanFor(p, TowardZero).nExtra), 1, 0) == OutOfBounds
  {
    var p := Program(16, 16, 0, 1, 1, false);
    CDivOfMultiple(1, 16, TowardZero);
    assert NBlocks(p, TowardZero) == 1;
  }

  /** The bias load with the query axis checked as well, as for Q: a row past the end is zero-filled. */
  function BiasAccessChecked(p: Program, keyCheck: bool, i: int, c: int): (a: Access)
    ensures !(0 <= p.FirstRow() + i < p.seqlenQ) ==> a == ZeroFilled
  {
    LoadFn(true, keyCheck, p.seqlenQ, p.seqlenK, p.FirstRow() + i, c)
  }

  /** With the query axis checked the bias load never reaches outside the tensor on a visited tile. */
  lemma BiasLoadsInBounds(p: Program, rnd: Rounding, masked: bool, t: int, i: int, j: int)
    requires p.Valid() && PlanFor(p, rnd).Tiles?
    requires VisitedBy(PlanFor(p, rnd), masked, t) && 0 <= j < p.blockN
    ensures BiasAccessChecked(p, KeyAxisChecked(masked, PlanFor(p, rnd).nExtra), i, t * p.blockN + j) != OutOfBounds
  {
    if !KeyAxisChecked(masked, PlanFor(p, rnd).nExtra) {
      UncheckedKeysExist(p, rnd, masked, t, j);
    }
  }
}
