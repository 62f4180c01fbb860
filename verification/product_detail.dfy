/**
 The product page (ProductDetailPage.jsx): a quantity that starts at 1 and is
 changed by "-" and "+", and an add-to-cart button that does nothing until the
 product has loaded. The fetch that loads the product is an input here.
 */
module ProductDetail {
  import opened Wrappers
  import CartStore

  /** The page's state: the loaded product (if any), the selected quantity and the "added" flag. */
  datatype Page = Page(product: Option<CartStore.Product>, quantity: int, added: bool)

  /** `useState(1)`. */
  const InitialQuantity: int := 1

  /** The page before any click, with whatever the fetch produced. */
  function Initial(product: Option<CartStore.Product>): (p: Page)
    ensures p.quantity == 1 && !p.added
    ensures p.product == product
  {
    Page(product, InitialQuantity, false)
  }

  /** `handleQuantityChange(newQuantity)`: accept the new quantity only when it is at least 1. */
  function HandleQuantityChange(quantity: int, newQuantity: int): (r: int)
    ensures r == newQuantity || r == quantity
    ensures newQuantity >= 1 ==> r == newQuantity
    ensures newQuantity < 1 ==> r == quantity
    ensures quantity >= 1 ==> r >= 1
  {
    if newQuantity >= 1 then newQuantity else quantity
  }

  /** `handleAddToCart()`: with a product loaded, add exactly the selected quantity
      and raise the "added" flag; without one, nothing happens. */
  function HandleAddToCart(page: Page, cart: CartStore.Cart): (r: (Page, CartStore.Cart))
    ensures page.product.None? ==> r == (page, cart)
    ensures page.product.Some? ==> r.1 == CartStore.AddToCart(cart, page.product.value, page.quantity) && r.0.added
    ensures r.0.product == page.product && r.0.quantity == page.quantity
  {
    match page.product
    case None => (page, cart)
    case Some(p) => (page.(added := true), CartStore.AddToCart(cart, p, page.quantity))
  }

  /** The page's buttons. */
  datatype Click = Minus | Plus | AddToCart

  /** One click on the page. Every click is applied, including an Add click while the
      button is disabled, so the lemmas over `Run` cover every sequence the page allows. */
  function Step(page: Page, cart: CartStore.Cart, click: Click): (Page, CartStore.Cart)
  {
    match click
    case Minus => (page.(quantity := HandleQuantityChange(page.quantity, page.quantity - 1)), cart)
    case Plus => (page.(quantity := HandleQuantityChange(page.quantity, page.quantity + 1)), cart)
    case AddToCart => HandleAddToCart(page, cart)
  }

  /** A sequence of clicks, applied in order; the safety lemmas below are stated over it. */
  function Run(page: Page, cart: CartStore.Cart, clicks: seq<Click>): (Page, CartStore.Cart)
    decreases |clicks|
  {
    if |clicks| == 0 then (page, cart)
    else
      var (p, c) := Step(page, cart, clicks[0]);
      Run(p, c, clicks[1..])
  }

  /** "-" at quantity 1 leaves the quantity at 1. */
  lemma MinusAtOneStaysOne(page: Page, cart: CartStore.Cart)
    requires page.quantity == 1
    ensures Step(page, cart, Minus).0.quantity == 1
    ensures Step(page, cart, Minus).1 == cart
  {
  }

  /** From the initial page, any sequence of clicks keeps the quantity at 1 or more,
      and every line the page adds to holds at least one unit. */
  lemma {:induction false} RunKeepsQuantityPositive(page: Page, cart: CartStore.Cart, clicks: seq<Click>)
    requires page.quantity >= 1 && CartStore.PositiveQuantities(cart)
    ensures Run(page, cart, clicks).0.quantity >= 1
    ensures CartStore.PositiveQuantities(Run(page, cart, clicks).1)
    decreases |clicks|
  {
    if |clicks| > 0 {
      var (p, c) := Step(page, cart, clicks[0]);
      if clicks[0] == AddToCart && page.product.Some? {
        CartStore.PositiveQuantitiesPreserved(cart, page.product.value, page.quantity, page.product.value.id);
      }
      RunKeepsQuantityPositive(p, c, clicks[1..]);
    }
  }

  /** With no product loaded, no sequence of clicks changes the cart. */
  lemma {:induction false} NoProductNoCartChange(page: Page, cart: CartStore.Cart, clicks: seq<Click>)
    requires page.product.None?
    ensures Run(page, cart, clicks).1 == cart
    decreases |clicks|
  {
    if |clicks| > 0 {
      var (p, c) := Step(page, cart, clicks[0]);
      NoProductNoCartChange(p, c, clicks[1..]);
    }
  }
}
