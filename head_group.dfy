/**
 * Grouped-query attention: several query heads share one key/value head.
 * The kernel maps query head `off_h_q` to key/value head `off_h_k`.
 */
module HeadGroup {
  import TileMath

  /** Number of query heads per key/value head, `HQ // HK`. */
  function GroupSize(hq: nat, hk: nat): nat
    requires hk > 0
  {
    hq / hk
  }

  /**
   * The key/value head read by query head `offHQ`. With `HQ % HK == 0` the
   * result is a valid key/value head, and `offHQ` lies in the block of
   * `GroupSize` consecutive query heads that belongs to it.
   */
  function KvHead(offHQ: nat, hq: nat, hk: nat): (kv: nat)
    requires hk > 0 && hq % hk == 0 && offHQ < hq
    ensures kv < hk
    ensures kv * GroupSize(hq, hk) <= offHQ < (kv + 1) * GroupSize(hq, hk)
  {
    var g := GroupSize(hq, hk);
    GroupsFill(hq, hk);
    GroupOf(offHQ, hk, g)
  }

  /** `HQ` is `HK` whole groups, each of at least one head. */
  lemma GroupsFill(hq: nat, hk: nat)
    requires hk > 0 && hq % hk == 0 && hq > 0
    ensures hq == hk * GroupSize(hq, hk) && GroupSize(hq, hk) > 0
  {
    TileMath.DivExact(hq, hk);
  }

  /**
   * `off_h_q // GROUP_SIZE if GROUP_SIZE != 1 else off_h_q`: among k groups
   * of g consecutive heads, the group holding head x.
   */
  function GroupOf(x: nat, k: nat, g: nat): (kv: nat)
    requires g > 0 && x < k * g
    ensures kv < k && kv * g <= x < (kv + 1) * g
  {
    TileMath.AddMul(x / g, 1, g);
    TileMath.MulCancelLt(x / g, k, g);
    if g != 1 then x / g else x
  }

  /**
   * Both directions: query head `offHQ` reads key/value head `kv` exactly
   * when it lies in `[kv * G, (kv + 1) * G)`, G the group size.
   */
  lemma KvHeadPreimage(offHQ: nat, hq: nat, hk: nat, kv: nat)
    requires hk > 0 && hq % hk == 0 && offHQ < hq && kv < hk
    ensures KvHead(offHQ, hq, hk) == kv
        <==> kv * GroupSize(hq, hk) <= offHQ < (kv + 1) * GroupSize(hq, hk)
  {
    var g := GroupSize(hq, hk);
    var h := KvHead(offHQ, hq, hk);
    if kv * g <= offHQ < (kv + 1) * g {
      TileMath.MulCancelLt(h, kv + 1, g);
      TileMath.MulCancelLt(kv, h + 1, g);
    }
  }

  /**
   * Every key/value head serves exactly the `G` consecutive query heads
   * `[kv * G, (kv + 1) * G)`, and that block lies inside `[0, HQ)`; when
   * there are query heads at all, every key/value head serves at least one.
   */
  lemma KvHeadServesGroup(hq: nat, hk: nat, kv: nat)
    requires hk > 0 && hq % hk == 0 && kv < hk
    ensures (kv + 1) * GroupSize(hq, hk) <= hq
    ensures forall h: nat | h < hq ::
      KvHead(h, hq, hk) == kv <==> kv * GroupSize(hq, hk) <= h < (kv + 1) * GroupSize(hq, hk)
    ensures hq > 0 ==> exists h: nat :: h < hq && KvHead(h, hq, hk) == kv
  {
    var g := GroupSize(hq, hk);
    assert hq == hk * g;
    TileMath.MulLeq(kv + 1, hk, g);
    forall h: nat | h < hq
      ensures KvHead(h, hq, hk) == kv <==> kv * g <= h < (kv + 1) * g
    {
      KvHeadPreimage(h, hq, hk, kv);
    }
    if hq > 0 {
      GroupsFill(hq, hk);
      TileMath.AddMul(kv, 1, g);
      KvHeadPreimage(kv * g, hq, hk, kv);
    }
  }

  /** With 8 query heads over 2 key/value heads, heads 0-3 read head 0 and heads 4-7 read head 1. */
  lemma EightOverTwo()
    ensures forall h: nat | h < 4 :: KvHead(h, 8, 2) == 0
    ensures forall h: nat | 4 <= h < 8 :: KvHead(h, 8, 2) == 1
  {
    KvHeadServesGroup(8, 2, 0);
    KvHeadServesGroup(8, 2, 1);
  }
}
