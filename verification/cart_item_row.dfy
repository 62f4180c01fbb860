/**
 One row of the checkout's order summary (CartItemRow.jsx): the price shown,
 the struck-through list price when a discount is advertised, and the line total.
 */
module CartItemRow {
  import opened Wrappers
  import Pricing
  import CartStore

  /** What a row displays. `struckPrice` is the line-through list price. */
  datatype RowView = RowView(
    title: string,
    thumbnail: string,
    shownPrice: real,
    struckPrice: Option<real>,
    quantity: int,
    lineTotal: real,
    removeButton: bool)

  /** Renders a cart line; `showRemove` defaults to true in the source. */
  function Row(item: CartStore.CartLine, showRemove: bool): (v: RowView)
    ensures v.struckPrice.Some? <==> item.product.discountPercentage >= 0.5
    ensures v.struckPrice.Some? ==>
      && v.struckPrice.value == item.product.price
      && v.shownPrice == Pricing.DiscountedPrice(item.product.price, item.product.discountPercentage)
    ensures v.struckPrice.None? ==> v.shownPrice == item.product.price
    ensures v.lineTotal == CartStore.LineAmount(item)
    ensures v.quantity == item.quantity && v.removeButton == showRemove
  {
    var p := item.product;
    var hasDiscount := Pricing.HasDiscount(p.discountPercentage);
    var discountedPrice := Pricing.DiscountedPrice(p.price, p.discountPercentage);
    RowView(
      p.title,
      p.thumbnail,
      if hasDiscount then discountedPrice else p.price,
      if hasDiscount then Some(p.price) else None,
      item.quantity,
      discountedPrice * (item.quantity as real),
      showRemove)
  }

  /** The rows' line totals add up to the store's cart total. */
  lemma {:induction false} RowsSumToCartTotal(cart: CartStore.Cart)
    ensures RowTotals(cart) == CartStore.Total(cart)
  {
    if |cart| > 0 {
      RowsSumToCartTotal(cart[1..]);
    }
  }

  /** The sum of the line totals shown by the rows of a cart. */
  function RowTotals(cart: CartStore.Cart): real
  {
    if |cart| == 0 then 0.0 else Row(cart[0], true).lineTotal + RowTotals(cart[1..])
  }

  /** Without a discount a row shows the list price, no struck price, and list price times quantity. */
  lemma ZeroDiscountRow(item: CartStore.CartLine)
    requires item.product.discountPercentage == 0.0
    ensures var v := Row(item, true);
      && v.shownPrice == item.product.price
      && v.struckPrice.None?
      && v.lineTotal == item.product.price * (item.quantity as real)
  {
  }

  /** A discount under half a percent is not advertised, yet the line total charges
      it: the row shows the list price but totals less than list price times quantity. */
  lemma SuppressedDiscountStillCharged(item: CartStore.CartLine)
    requires item.product.price > 0.0 && 0.0 < item.product.discountPercentage < 0.5
    requires item.quantity >= 1
    ensures var v := Row(item, true);
      && v.struckPrice.None?
      && v.shownPrice == item.product.price
      && v.lineTotal < item.product.price * (item.quantity as real)
  {
    var p := item.product;
    var u := CartStore.UnitPrice(item);
    Pricing.SuppressedBadgeStillDiscounts(p.price, p.discountPercentage);
    assert Row(item, true).lineTotal == u * (item.quantity as real);
    Pricing.BelowScaled(Row(item, true).lineTotal, u, p.price, item.quantity as real);
  }
}
