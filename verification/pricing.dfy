/**
 The pricing rules repeated in CartItemRow.jsx, ProductList.jsx and
 CartContext.js: the discounted unit price and the rule that decides whether a
 discount badge is shown. Prices are exact reals; the two-decimal `toFixed`
 display rounding is not part of the model.
 */
module Pricing {

  /** JavaScript's `Math.round`: the nearest integer, halves rounded towards +infinity. */
  function MathRound(x: real): (r: int)
    ensures (r as real) - 0.5 <= x < (r as real) + 0.5
  {
    (x + 0.5).Floor
  }

  /** `price * (1 - discountPercentage / 100)`, the unit price after discount. */
  function DiscountedPrice(price: real, discountPercentage: real): (r: real)
    ensures discountPercentage == 0.0 ==> r == price
    ensures discountPercentage == 100.0 ==> r == 0.0
    ensures 0.0 <= price && 0.0 <= discountPercentage <= 100.0 ==> 0.0 <= r <= price
  {
    var factor := 1.0 - discountPercentage / 100.0;
    assert 0.0 <= price && 0.0 <= discountPercentage <= 100.0 ==> 0.0 <= price * factor <= price by {
      if 0.0 <= price && 0.0 <= discountPercentage <= 100.0 {
        ScaleDown(price, factor);
      }
    }
    price * factor
  }

  /** Scaling a non-negative amount by a factor in [0, 1] keeps it between 0 and itself. */
  lemma ScaleDown(p: real, f: real)
    requires 0.0 <= p && 0.0 <= f <= 1.0
    ensures 0.0 <= p * f <= p
  {
    assert p - p * f == p * (1.0 - f);
  }

  /** Multiplying 0 <= u <= p by a non-negative factor keeps the order. */
  lemma ScaleBound(u: real, p: real, q: real)
    requires 0.0 <= u <= p && 0.0 <= q
    ensures 0.0 <= u * q <= p * q
  {
    assert p * q - u * q == (p - u) * q;
  }

  /** An amount of a * q, with a < b and q positive, stays below b * q. */
  lemma BelowScaled(x: real, a: real, b: real, q: real)
    requires x == a * q && a < b && q > 0.0
    ensures x < b * q
  {
    assert b * q - a * q == (b - a) * q;
  }

  /** The badge rule: a discount is advertised only when it rounds to a positive percentage. */
  function HasDiscount(discountPercentage: real): (b: bool)
    ensures b <==> discountPercentage >= 0.5
  {
    MathRound(discountPercentage) > 0
  }

  /** A discount below half a percent is still charged although no badge advertises it. */
  lemma SuppressedBadgeStillDiscounts(price: real, discountPercentage: real)
    requires price > 0.0 && 0.0 < discountPercentage < 0.5
    ensures !HasDiscount(discountPercentage)
    ensures DiscountedPrice(price, discountPercentage) < price
  {
    assert DiscountedPrice(price, discountPercentage) == price - price * (discountPercentage / 100.0);
    assert price * (discountPercentage / 100.0) > 0.0;
  }
}
