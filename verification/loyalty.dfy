/**
 * The loyalty card (components/loyalty/LoyaltyBadge.tsx): the tier a points balance
 * earns, the next threshold, the progress bar, and the benefits listed per tier.
 */
module Loyalty {
  import opened Optional
  import JsNumber

  datatype Tier = Bronze | Silver | Gold | Diamond {
    function Rank(): nat {
      match this
      case Bronze => 0
      case Silver => 1
      case Gold => 2
      case Diamond => 3
    }
  }

  /** getTier: 10000 and up Diamond, 5000 Gold, 1000 Silver, otherwise Bronze. */
  function TierOf(points: int): Tier {
    if points >= 10000 then Diamond
    else if points >= 5000 then Gold
    else if points >= 1000 then Silver
    else Bronze
  }

  /** The lowest balance of each tier above Bronze. */
  function Threshold(t: Tier): int
    requires t != Bronze
  {
    match t
    case Silver => 1000
    case Gold => 5000
    case Diamond => 10000
  }

  /** More points never mean a lower tier, and each threshold earns exactly its tier. */
  lemma TierMonotone(p: int, q: int)
    requires p <= q
    ensures TierOf(p).Rank() <= TierOf(q).Rank()
    ensures TierOf(p) != Bronze ==> p >= Threshold(TierOf(p)) && TierOf(Threshold(TierOf(p))) == TierOf(p)
  {
  }

  /** nextTier: the next threshold above the balance, none from Diamond on. */
  function NextTier(points: int): Option<int> {
    if points < 1000 then Some(1000)
    else if points < 5000 then Some(5000)
    else if points < 10000 then Some(10000)
    else None
  }

  /** `(points % nextTier) / nextTier * 100`, or 100 when there is no next tier. */
  function Progress(points: int): real {
    match NextTier(points)
    case None => 100.0
    case Some(n) => JsNumber.Rem(points, n) as real / n as real * 100.0
  }

  /** "N points until next tier". */
  function PointsNeeded(points: int): int
    requires NextTier(points).Some?
  {
    NextTier(points).value - points
  }

  /**
   * Below Diamond there is a next threshold, above the balance, and reaching it moves
   * up exactly one tier; the points still needed are positive. For a non-negative
   * balance the bar lies in [0, 100) and is the balance's share of the next threshold,
   * counted from 0 rather than from the current tier's threshold.
   */
  lemma NextTierProperties(points: int)
    ensures NextTier(points).Some? <==> TierOf(points) != Diamond
    ensures NextTier(points).Some? ==>
      && NextTier(points).value > points
      && TierOf(NextTier(points).value).Rank() == TierOf(points).Rank() + 1
      && PointsNeeded(points) > 0
    ensures NextTier(points).None? ==> Progress(points) == 100.0
    ensures points >= 0 && NextTier(points).Some? ==>
      && 0.0 <= Progress(points) < 100.0
      && Progress(points) == points as real / NextTier(points).value as real * 100.0
  {
    if points >= 0 && NextTier(points).Some? {
      var n := NextTier(points).value;
      assert JsNumber.Rem(points, n) == points by {
        assert points == n * 0 + points;
      }
      assert points as real / n as real < 1.0;
    }
  }

  /** The percentage off listed for each tier. */
  function DiscountBenefit(t: Tier): int {
    match t
    case Diamond => 25
    case Gold => 15
    case Silver => 10
    case Bronze => 5
  }

  /** Free shipping is unconditional above Bronze; Bronze gets it on orders of $50 and up. */
  predicate FreeShippingOnAllOrders(t: Tier) {
    t != Bronze
  }

  predicate EarlyAccess(t: Tier) {
    t != Bronze
  }

  /** A higher tier never lists fewer benefits: a larger discount, and the perks once earned stay. */
  lemma BenefitsGrowWithTier(a: Tier, b: Tier)
    requires a.Rank() < b.Rank()
    ensures DiscountBenefit(a) < DiscountBenefit(b)
    ensures FreeShippingOnAllOrders(a) ==> FreeShippingOnAllOrders(b)
    ensures EarlyAccess(a) ==> EarlyAccess(b)
    ensures FreeShippingOnAllOrders(b) && EarlyAccess(b)
  {
  }
}
