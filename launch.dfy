/**
 * The host-side wrapper: argument validation, the padded head width and
 * the launch grid, and what they guarantee the kernel.
 */
module Launch {
  import opened Wrappers
  import opened TileMath
  import opened SequenceIndex
  import HeadGroup

  /** A tensor as far as the wrapper inspects it: its shape and its element type. */
  datatype Tensor = Tensor(shape: seq<nat>, dtype: nat)
  {
    function Dim(): nat
    {
      |shape|
    }
  }

  /** The assertion of `check_args` that fails first, in the order the checks run. */
  datatype ArgError =
    | RankMismatch            // q, k and v do not have the same number of dimensions
    | NotPacked               // packed mode needs 3-D (total, heads, dim) tensors
    | MissingCuSeqlensQ
    | MissingCuSeqlensK
    | CuSeqlensLengthMismatch
    | NotPadded               // fixed-length mode needs 4-D (batch, heads, seq, dim) tensors
    | MissingMaxSeqlens       // `max_seqlens > 0` with no value raises
    | NonPositiveMaxSeqlens
    | KvShapeMismatch
    | HeadSizeMismatch
    | DtypeMismatch
    | HeadTooLarge
    | OutputShapeMismatch
    | ZeroKvHeads             // `nheads_q % nheads_k` with no key/value heads raises
    | HeadsNotDivisible

  /** What `check_args` demands, all at once. */
  predicate ArgsAccepted(q: Tensor, k: Tensor, v: Tensor, o: Tensor, varlen: bool,
                         maxSeqlens: Option<int>, cuQ: Option<seq<int>>, cuK: Option<seq<int>>)
  {
    && q.Dim() == k.Dim() == v.Dim()
    && (if varlen
        then q.Dim() == 3 && cuQ.Some? && cuK.Some? && |cuQ.value| == |cuK.value|
        else q.Dim() == 4 && maxSeqlens.Some? && maxSeqlens.value > 0)
    && k.shape == v.shape
    && q.shape[q.Dim() - 1] == k.shape[k.Dim() - 1] == v.shape[v.Dim() - 1]
    && q.dtype == k.dtype == v.dtype
    && q.shape[q.Dim() - 1] <= 256
    && o.shape == q.shape
    && k.shape[1] > 0
    && q.shape[1] % k.shape[1] == 0
  }

  /**
   * `check_args`: passes exactly when every demand holds, and otherwise
   * names the first assertion that fails. A rank mismatch is reported
   * before anything else, and with equal ranks a rank wrong for the mode
   * (not 3 when packed, not 4 when fixed-length) is reported next.
   */
  function CheckArgs(q: Tensor, k: Tensor, v: Tensor, o: Tensor, varlen: bool,
                     maxSeqlens: Option<int>, cuQ: Option<seq<int>>, cuK: Option<seq<int>>): (r: Outcome<ArgError>)
    ensures r.Pass? <==> ArgsAccepted(q, k, v, o, varlen, maxSeqlens, cuQ, cuK)
    ensures r == Fail(RankMismatch) <==> !(q.Dim() == k.Dim() == v.Dim())
    ensures q.Dim() == k.Dim() == v.Dim() ==> (r == Fail(NotPacked) <==> varlen && q.Dim() != 3)
    ensures q.Dim() == k.Dim() == v.Dim() ==> (r == Fail(NotPadded) <==> !varlen && q.Dim() != 4)
  {
    if !(q.Dim() == k.Dim() && q.Dim() == v.Dim()) then Fail(RankMismatch)
    else if varlen && q.Dim() != 3 then Fail(NotPacked)
    else if varlen && cuQ.None? then Fail(MissingCuSeqlensQ)
    else if varlen && cuK.None? then Fail(MissingCuSeqlensK)
    else if varlen && |cuQ.value| != |cuK.value| then Fail(CuSeqlensLengthMismatch)
    else if !varlen && q.Dim() != 4 then Fail(NotPadded)
    else if !varlen && maxSeqlens.None? then Fail(MissingMaxSeqlens)
    else if !varlen && maxSeqlens.value <= 0 then Fail(NonPositiveMaxSeqlens)
    else
      var headSize := q.shape[q.Dim() - 1];
      var nheadsQ, nheadsK := q.shape[1], k.shape[1];
      if k.shape != v.shape then Fail(KvShapeMismatch)
      else if !(headSize == k.shape[k.Dim() - 1] && headSize == v.shape[v.Dim() - 1]) then Fail(HeadSizeMismatch)
      else if !(q.dtype == k.dtype && q.dtype == v.dtype) then Fail(DtypeMismatch)
      else if headSize > 256 then Fail(HeadTooLarge)
      else if o.shape != q.shape then Fail(OutputShapeMismatch)
      else if nheadsK == 0 then Fail(ZeroKvHeads)
      else if nheadsQ % nheadsK != 0 then Fail(HeadsNotDivisible)
      else Pass
  }

  /** The head widths the kernel handles without padding, in ascending order. */
  const AscendingWidths: seq<nat> := [32, 64, 128, 256]

  /**
   * An order in which the wrapper's `for` loop may visit the set literal
   * `{32, 64, 128, 256}`: four entries holding the four widths, so each
   * width exactly once. The language leaves the order to the interpreter.
   */
  predicate IsIterationOrder(order: seq<nat>)
  {
    && |order| == |AscendingWidths|
    && (forall w | w in order :: w in AscendingWidths)
    && (forall w | w in AscendingWidths :: w in order)
  }

  /**
   * The order CPython iterates the set when the module is compiled from
   * source: a four-element set lives in an eight-slot table indexed by the
   * value modulo 8; 32 takes slot 0, and 64, 128 and 256, which collide with
   * it, are probed to slots 3, 5 and 1.
   */
  const SourceCompiledOrder: seq<nat> := [32, 256, 64, 128]

  /**
   * The order CPython 3.11 and later iterates the set when the module is
   * loaded from cached bytecode: the constant is stored sorted by its
   * serialised bytes and rebuilt in that insertion order, so 256 lands in
   * slot 0 and 32 is probed to slot 2.
   */
  const CachedBytecodeOrder: seq<nat> := [256, 32, 64, 128]

  /** The first width of ws, in the order of ws, above h, when there is one. */
  function FirstAbove(ws: seq<nat>, h: nat): (r: Option<nat>)
    ensures r.Some? <==> exists k | 0 <= k < |ws| :: ws[k] > h
    ensures r.Some? ==> exists k | 0 <= k < |ws| :: ws[k] == r.value && r.value > h && forall j | 0 <= j < k :: ws[j] <= h
  {
    if ws == [] then None
    else if ws[0] > h then Some(ws[0])
    else
      var r := FirstAbove(ws[1..], h);
      assert forall k | 0 <= k < |ws[1..]| :: ws[1..][k] == ws[k + 1];
      r
  }

  /** A width that is not unpadded finds one above it exactly when it is below 256, in any order. */
  lemma PaddedWidthInRange(headSize: nat, order: seq<nat>)
    requires IsIterationOrder(order) && headSize !in order
    ensures var r := FirstAbove(order, headSize);
            && (r.Some? <==> headSize <= 256)
            && (r.Some? ==> r.value in order && headSize <= r.value)
  {
    if headSize < 256 {
      assert 256 in order;
      var k :| 0 <= k < |order| && order[k] == 256;
    } else {
      forall k | 0 <= k < |order|
        ensures order[k] <= 256
      {
        assert order[k] in AscendingWidths;
      }
    }
  }

  /**
   * `padded_d_model`: the head width itself when it is one of the unpadded
   * widths, otherwise the first width above it in the order the loop visits
   * the set. There is one exactly when the head size is at most 256, and it
   * is then an unpadded width at or above the head size, whatever that
   * order.
   */
  method PaddedHeadWidth(headSize: nat, order: seq<nat>) returns (padded: Option<nat>)
    requires IsIterationOrder(order)
    ensures padded == if headSize in order then Some(headSize) else FirstAbove(order, headSize)
    ensures padded.Some? <==> headSize <= 256
    ensures padded.Some? ==> padded.value in AscendingWidths && headSize <= padded.value
    ensures headSize in AscendingWidths ==> padded == Some(headSize)
  {
    if headSize !in order {
      padded := None;
      var i := 0;
      while i < |order|
        invariant 0 <= i <= |order|
        invariant FirstAbove(order[i..], headSize) == FirstAbove(order, headSize)
        invariant padded.None?
      {
        if order[i] > headSize {
          padded := Some(order[i]);
          break;
        }
        assert order[i..][1..] == order[i + 1..];
        i := i + 1;
      }
      PaddedWidthInRange(headSize, order);
    } else {
      padded := Some(headSize);
    }
  }

  /**
   * As written, a head size of 40 is padded to 256 in both CPython orders,
   * although 64, an unpadded width of the same set, also holds it: the loop
   * meets 256 before 64.
   */
  lemma PaddedWidthSkipsSmaller()
    ensures IsIterationOrder(SourceCompiledOrder) && IsIterationOrder(CachedBytecodeOrder)
    ensures FirstAbove(SourceCompiledOrder, 40) == Some(256)
    ensures FirstAbove(CachedBytecodeOrder, 40) == Some(256)
    ensures 64 in AscendingWidths && 40 < 64 < 256
  {
    CPythonOrdersValid();
  }

  /** Both CPython orders visit each of the four widths exactly once. */
  lemma CPythonOrdersValid()
    ensures IsIterationOrder(SourceCompiledOrder) && IsIterationOrder(CachedBytecodeOrder)
  {
  }

  /**
   * The two CPython orders pad alike from 32 up, but below 32 a module
   * compiled from source pads to 32 and one loaded from cached bytecode to
   * 256: every head size below 256 that is not unpadded then pads to 256.
   */
  lemma IterationOrdersDiffer(headSize: nat)
    requires headSize !in AscendingWidths
    ensures headSize >= 32 ==> FirstAbove(SourceCompiledOrder, headSize) == FirstAbove(CachedBytecodeOrder, headSize)
    ensures headSize < 32 ==> FirstAbove(SourceCompiledOrder, headSize) == Some(32)
    ensures headSize < 256 ==> FirstAbove(CachedBytecodeOrder, headSize) == Some(256)
  {
  }

  /** In a strictly ascending sequence the first width above h is the least one. */
  lemma {:induction false} FirstAboveSortedIsLeast(ws: seq<nat>, h: nat)
    requires forall a, b | 0 <= a < b < |ws| :: ws[a] < ws[b]
    ensures FirstAbove(ws, h).Some? ==> forall w | w in ws && h < w :: FirstAbove(ws, h).value <= w
  {
    if ws != [] && ws[0] <= h {
      FirstAboveSortedIsLeast(ws[1..], h);
      assert forall w | w in ws && h < w :: w in ws[1..];
    }
  }

  /**
   * The padded width as evidently intended: the head width itself when
   * unpadded, otherwise the next unpadded width up. It is the least
   * unpadded width at or above the head size.
   */
  function IntendedPaddedWidth(headSize: nat): (r: Option<nat>)
    ensures r.Some? <==> headSize <= 256
    ensures r.Some? ==> r.value in AscendingWidths && headSize <= r.value
    ensures r.Some? ==> forall w | w in AscendingWidths && headSize <= w :: r.value <= w
    ensures headSize in AscendingWidths ==> r == Some(headSize)
  {
    FirstAboveSortedIsLeast(AscendingWidths, headSize);
    assert headSize < 256 ==> AscendingWidths[3] > headSize;
    if headSize in AscendingWidths then Some(headSize) else FirstAbove(AscendingWidths, headSize)
  }

  /** The launch grid: query tiles of the longest query sequence, query heads, batch elements. */
  datatype Grid = Grid(tiles: int, heads: nat, batch: int)

  function LaunchGrid(maxSeqlensQ: nat, blockM: nat, nheadsQ: nat, cuQ: seq<int>): (g: Grid)
    requires blockM > 0
    ensures maxSeqlensQ <= g.tiles * blockM < maxSeqlensQ + blockM
  {
    Grid(CDiv(maxSeqlensQ, blockM, Floor), nheadsQ, |cuQ| - 1)
  }

  /**
   * Grid coverage: when no packed query sequence is longer than the
   * configured maximum, every row r of every sequence z of every query head
   * h is owned by exactly one program, `(r / BLOCK_M, h, z)`; that program
   * is in the grid, its query tile contains r, and it does not return early.
   */
  lemma EveryRowOwned(maxSeqlensQ: nat, maxSeqlensK: nat, blockM: nat, nheadsQ: nat,
                      cuQ: seq<int>, cuK: seq<int>, z: nat, h: nat, r: nat)
    requires blockM > 0 && |cuQ| == |cuK|
    requires z + 1 < |cuQ| && TablesCover(cuQ, cuK, z)
    requires cuQ[z + 1] - cuQ[z] <= maxSeqlensQ
    requires h < nheadsQ && r < cuQ[z + 1] - cuQ[z]
    ensures var g := LaunchGrid(maxSeqlensQ, blockM, nheadsQ, cuQ);
            var m := r / blockM;
            && 0 <= m < g.tiles && h < g.heads && z < g.batch
            && m * blockM <= r < (m + 1) * blockM
            && ResolveSequence(true, cuQ, cuK, z, maxSeqlensQ, maxSeqlensK, m, blockM).Some?
            && forall m': nat | m' * blockM <= r < (m' + 1) * blockM :: m' == m
  {
    var g := LaunchGrid(maxSeqlensQ, blockM, nheadsQ, cuQ);
    var m := r / blockM;
    assert m * blockM <= r < m * blockM + blockM;
    AddMul(m, 1, blockM);
    MulCancelLt(m, g.tiles, blockM);
    forall m': nat | m' * blockM <= r < (m' + 1) * blockM
      ensures m' == m
    {
      AddMul(m', 1, blockM);
      SameTile(m', m, blockM, r);
    }
  }

  /**
   * What validation buys the launch in packed mode: the head size admits a
   * padded width (see PaddedHeadWidth), the group size divides the query
   * heads evenly, and the grouped-query mapping sends every query head to a
   * key/value head that exists.
   */
  lemma AcceptedArgsLaunch(q: Tensor, k: Tensor, v: Tensor, o: Tensor,
                           cuQ: seq<int>, cuK: seq<int>, offHQ: nat)
    requires CheckArgs(q, k, v, o, true, None, Some(cuQ), Some(cuK)).Pass?
    requires offHQ < q.shape[1]
    ensures q.shape[2] <= 256
    ensures k.shape[1] > 0 && q.shape[1] % k.shape[1] == 0
    ensures HeadGroup.KvHead(offHQ, q.shape[1], k.shape[1]) < k.shape[1]
  {
  }
}
