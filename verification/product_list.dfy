/**
 The product grid (ProductList.jsx): a per-product quantity selector kept in a
 map from product id to the chosen quantity, the add-to-cart button that sends
 that quantity to the cart store, and the prices shown on each card.
 */
module ProductList {
  import opened Wrappers
  import Pricing
  import CartStore

  /** `quantities`: the selections recorded so far, by product id. */
  type Selections = map<int, int>

  /** `useState({})`. */
  const NoSelections: Selections := map[]

  /** Every recorded selection is at least 1. */
  predicate ValidSelections(selections: Selections)
  {
    forall id :: id in selections ==> selections[id] >= 1
  }

  /** `quantities[id] || 1`: the recorded selection, or 1 when there is none
      (a recorded 0 is falsy and would also read as 1). */
  function SelectedQuantity(selections: Selections, id: int): (q: int)
    ensures id !in selections ==> q == 1
    ensures id in selections && selections[id] != 0 ==> q == selections[id]
    ensures id in selections && selections[id] == 0 ==> q == 1
    ensures ValidSelections(selections) ==> q >= 1
  {
    if id in selections && selections[id] != 0 then selections[id] else 1
  }

  /** `handleQuantityChange(productId, newQuantity)`: record the new quantity only when it is at least 1. */
  function HandleQuantityChange(selections: Selections, id: int, newQuantity: int): (r: Selections)
    ensures newQuantity < 1 ==> r == selections
    ensures newQuantity >= 1 ==> id in r && r[id] == newQuantity
    ensures forall other :: other != id ==> (other in r <==> other in selections)
    ensures forall other :: other != id && other in r ==> r[other] == selections[other]
    ensures ValidSelections(selections) ==> ValidSelections(r)
  {
    if newQuantity >= 1 then selections[id := newQuantity] else selections
  }

  /** The "-" button of a card: the shown quantity drops by one, but never below 1. */
  function Decrement(selections: Selections, id: int): (r: Selections)
    ensures SelectedQuantity(selections, id) >= 2 ==> r == selections[id := SelectedQuantity(selections, id) - 1]
    ensures SelectedQuantity(selections, id) < 2 ==> r == selections
    ensures ValidSelections(selections) ==> ValidSelections(r) && SelectedQuantity(r, id) >= 1
  {
    HandleQuantityChange(selections, id, SelectedQuantity(selections, id) - 1)
  }

  /** The "+" button of a card: the shown quantity grows by one. */
  function Increment(selections: Selections, id: int): (r: Selections)
    ensures ValidSelections(selections) ==> r == selections[id := SelectedQuantity(selections, id) + 1]
    ensures ValidSelections(selections) ==> SelectedQuantity(r, id) == SelectedQuantity(selections, id) + 1
  {
    HandleQuantityChange(selections, id, SelectedQuantity(selections, id) + 1)
  }

  /** A product without a recorded selection shows 1, and "-" leaves it alone. */
  lemma DecrementFromDefaultRejected(selections: Selections, id: int)
    requires id !in selections
    ensures SelectedQuantity(selections, id) == 1
    ensures Decrement(selections, id) == selections
  {
  }

  /** "+" then "-" returns a card to the quantity it showed. */
  lemma IncrementThenDecrement(selections: Selections, id: int)
    requires ValidSelections(selections)
    ensures SelectedQuantity(Decrement(Increment(selections, id), id), id) == SelectedQuantity(selections, id)
  {
  }

  /** `handleAddToCart(product)`: add the selected quantity (1 by default); the
      card's "added" flag is set to the product id. */
  function HandleAddToCart(cart: CartStore.Cart, selections: Selections, product: CartStore.Product): (r: (CartStore.Cart, int))
    ensures r.1 == product.id
    ensures r.0 == CartStore.AddToCart(cart, product, SelectedQuantity(selections, product.id))
    ensures ValidSelections(selections) && CartStore.PositiveQuantities(cart) ==> CartStore.PositiveQuantities(r.0)
    ensures !CartStore.InCart(cart, product.id) ==>
      r.0 == cart + [CartStore.CartLine(product, SelectedQuantity(selections, product.id))]
  {
    var quantity := SelectedQuantity(selections, product.id);
    assert ValidSelections(selections) && CartStore.PositiveQuantities(cart) ==>
      CartStore.PositiveQuantities(CartStore.AddToCart(cart, product, quantity)) by {
      if ValidSelections(selections) && CartStore.PositiveQuantities(cart) {
        CartStore.PositiveQuantitiesPreserved(cart, product, quantity, product.id);
      }
    }
    (CartStore.AddToCart(cart, product, quantity), product.id)
  }

  /** What a product card displays. The list price is always shown struck through. */
  datatype CardView = CardView(
    badge: bool,
    unitPrice: real,
    listPrice: real,
    quantity: int,
    totalRow: Option<real>)

  /** The card of one product, given the selections. */
  function Card(product: CartStore.Product, selections: Selections): (v: CardView)
    ensures v.badge <==> product.discountPercentage >= 0.5
    ensures v.unitPrice == Pricing.DiscountedPrice(product.price, product.discountPercentage)
    ensures v.listPrice == product.price
    ensures v.quantity == SelectedQuantity(selections, product.id)
    ensures v.totalRow.Some? <==> v.quantity > 1
    ensures v.totalRow.Some? ==> v.totalRow.value == CartStore.LineAmount(CartStore.CartLine(product, v.quantity))
  {
    var quantity := SelectedQuantity(selections, product.id);
    var discountedPrice := Pricing.DiscountedPrice(product.price, product.discountPercentage);
    var totalPrice := discountedPrice * (quantity as real);
    CardView(
      Pricing.HasDiscount(product.discountPercentage),
      discountedPrice,
      product.price,
      quantity,
      if quantity > 1 then Some(totalPrice) else None)
  }

  /** The total a card shows is exactly what its add button adds to the cart total
      when the product is not yet in the cart. */
  lemma CardTotalIsWhatAddCosts(cart: CartStore.Cart, selections: Selections, product: CartStore.Product)
    requires !CartStore.InCart(cart, product.id)
    requires Card(product, selections).totalRow.Some?
    ensures CartStore.Total(HandleAddToCart(cart, selections, product).0)
      == CartStore.Total(cart) + Card(product, selections).totalRow.value
  {
    CartStore.TotalAfterAdd(cart, product, SelectedQuantity(selections, product.id));
  }

  /** The grid's user actions. */
  datatype Action = Minus(id: int) | Plus(id: int) | Add(product: CartStore.Product)

  /** The grid's state: the selections and the shared cart. */
  datatype State = State(selections: Selections, cart: CartStore.Cart)

  /** One action on the grid. Every Add is applied, including one while the button is
      disabled, so the lemma over `Run` covers every sequence the page allows. */
  function Step(s: State, a: Action): State
  {
    match a
    case Minus(id) => s.(selections := Decrement(s.selections, id))
    case Plus(id) => s.(selections := Increment(s.selections, id))
    case Add(p) => s.(cart := HandleAddToCart(s.cart, s.selections, p).0)
  }

  /** A sequence of actions, applied in order; `RunKeepsQuantitiesPositive` is stated over it. */
  function Run(s: State, actions: seq<Action>): State
    decreases |actions|
  {
    if |actions| == 0 then s else Run(Step(s, actions[0]), actions[1..])
  }

  /** Whatever the clicks, every selection stays at least 1 and every cart line
      the grid creates or merges into holds at least one unit. */
  lemma {:induction false} RunKeepsQuantitiesPositive(s: State, actions: seq<Action>)
    requires ValidSelections(s.selections) && CartStore.PositiveQuantities(s.cart)
    ensures ValidSelections(Run(s, actions).selections)
    ensures CartStore.PositiveQuantities(Run(s, actions).cart)
    decreases |actions|
  {
    if |actions| > 0 {
      RunKeepsQuantitiesPositive(Step(s, actions[0]), actions[1..]);
    }
  }
}
