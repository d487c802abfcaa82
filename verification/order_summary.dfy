/**
 * The order summary shown on the cart page (app/cart/page.tsx) and repeated on the
 * checkout page (app/checkout/page.tsx): shipping, tax, final total, the
 * free-shipping banner and its progress bar, and the per-line amounts.
 */
module OrderSummary {
  import opened CartWishlist

  const FreeShippingThreshold: real := 50.0
  const FlatShipping: real := 10.0

  /** `totalPrice > 50 ? 0 : 10`, as the cart and checkout pages write it. */
  function ShippingAsWritten(subtotal: real): real {
    if subtotal > 50.0 then 0.0 else 10.0
  }

  /** `totalPrice * 0.1`. */
  function Tax(subtotal: real): real {
    subtotal * 0.1
  }

  /** `totalPrice + shipping + tax`, as both pages compute it. */
  function FinalTotal(subtotal: real): real {
    subtotal + ShippingAsWritten(subtotal) + Tax(subtotal)
  }

  /**
   * The final total is the subtotal plus 10% tax, plus 10 of shipping exactly when the
   * subtotal is 50 or less (so a subtotal of exactly 50 totals 65); for a non-negative
   * subtotal it is never below the subtotal.
   */
  lemma FinalTotalBreakdown(subtotal: real)
    ensures subtotal > 50.0 ==> FinalTotal(subtotal) == subtotal * 1.1
    ensures subtotal <= 50.0 ==> FinalTotal(subtotal) == subtotal * 1.1 + 10.0
    ensures FinalTotal(50.0) == 65.0
    ensures subtotal >= 0.0 ==> FinalTotal(subtotal) >= subtotal
  {
  }

  /** `Math.min((totalPrice / 50) * 100, 100)`. */
  function FreeShippingProgress(subtotal: real): (r: real)
    ensures r <= 100.0
    ensures subtotal >= 0.0 ==> r >= 0.0
    ensures r == 100.0 <==> subtotal >= FreeShippingThreshold
    ensures subtotal < FreeShippingThreshold ==> r == subtotal * 2.0
  {
    var raw := subtotal / 50.0 * 100.0;
    if raw < 100.0 then raw else 100.0
  }

  /** The "add more for FREE shipping" banner is rendered when `totalPrice < 50`. */
  predicate ShowFreeShippingBanner(subtotal: real) {
    subtotal < 50.0
  }

  /** The amount the banner asks for: `50 - totalPrice`. */
  function AmountToFreeShipping(subtotal: real): (r: real)
    ensures ShowFreeShippingBanner(subtotal) ==> r > 0.0
    ensures subtotal + r == FreeShippingThreshold
  {
    50.0 - subtotal
  }

  /**
   * As written, the threshold of the banner (`< 50`) and of shipping (`> 50`) do not
   * meet: topping a cart up by exactly the amount the banner asks for reaches 50,
   * which still pays shipping, and at 50 the banner is gone while shipping is charged.
   */
  lemma AdvertisedTopUpStillPaysShipping(subtotal: real)
    requires ShowFreeShippingBanner(subtotal)
    ensures ShippingAsWritten(subtotal + AmountToFreeShipping(subtotal)) == FlatShipping
    ensures ShippingAsWritten(50.0) == FlatShipping && !ShowFreeShippingBanner(50.0)
  {
  }

  /** Shipping with the threshold the banner and the "$50+" wording describe. */
  function Shipping(subtotal: real): real {
    if subtotal >= 50.0 then 0.0 else 10.0
  }

  /** The final total with the intended shipping threshold. */
  function IntendedFinalTotal(subtotal: real): real {
    subtotal + Shipping(subtotal) + Tax(subtotal)
  }

  /**
   * With the intended threshold the banner shows exactly when shipping is charged,
   * and topping up by the amount it asks for makes shipping free.
   */
  lemma TopUpEarnsFreeShipping(subtotal: real)
    ensures Shipping(subtotal) == FlatShipping <==> ShowFreeShippingBanner(subtotal)
    ensures ShowFreeShippingBanner(subtotal) ==>
              Shipping(subtotal + AmountToFreeShipping(subtotal)) == 0.0
    ensures subtotal >= 50.0 ==> IntendedFinalTotal(subtotal) == subtotal * 1.1
    ensures subtotal < 50.0 ==> IntendedFinalTotal(subtotal) == subtotal * 1.1 + 10.0
  {
  }

  /**
   * The written and the intended shipping rules disagree at exactly one subtotal,
   * 50, where the written total is 10 higher; under either rule a larger subtotal
   * never pays more shipping.
   */
  lemma ShippingRulesCompared(subtotal: real, larger: real)
    ensures ShippingAsWritten(subtotal) != Shipping(subtotal) <==> subtotal == 50.0
    ensures FinalTotal(subtotal) - IntendedFinalTotal(subtotal) == if subtotal == 50.0 then 10.0 else 0.0
    ensures subtotal <= larger ==> ShippingAsWritten(larger) <= ShippingAsWritten(subtotal)
    ensures subtotal <= larger ==> Shipping(larger) <= Shipping(subtotal)
  {
  }

  /** The amounts printed next to each line: discounted unit price times quantity. */
  function DisplayedLineAmounts(cart: seq<LineItem>): (r: seq<real>)
    ensures |r| == |cart|
  {
    seq(|cart|, i requires 0 <= i < |cart| => LineAmount(cart[i]))
  }

  /** A plain front-to-back sum. */
  function Sum(xs: seq<real>): real {
    if xs == [] then 0.0 else xs[0] + Sum(xs[1..])
  }

  lemma {:induction false} SumAppend(xs: seq<real>, y: real)
    ensures Sum(xs + [y]) == Sum(xs) + y
  {
    if xs != [] {
      assert (xs + [y])[1..] == xs[1..] + [y];
      SumAppend(xs[1..], y);
    }
  }

  /** The per-line amounts shown in the summary add up to the store's getTotalPrice. */
  lemma {:induction false} LineAmountsSumToTotal(cart: seq<LineItem>)
    ensures Sum(DisplayedLineAmounts(cart)) == TotalPrice(cart)
  {
    if cart != [] {
      var init := cart[..|cart| - 1];
      LineAmountsSumToTotal(init);
      assert DisplayedLineAmounts(cart) == DisplayedLineAmounts(init) + [LineAmount(cart[|cart| - 1])];
      SumAppend(DisplayedLineAmounts(init), LineAmount(cart[|cart| - 1]));
    }
  }
}
