/**
 The cart store of CartContext.js. A cart is an ordered sequence of lines; a
 line is the product record spread into a new object plus a quantity, and the
 store keys lines by the product's numeric `id`. The store never checks stock
 and accepts any quantity, so quantities are plain integers here.
 */
module CartStore {
  import opened Wrappers
  import Pricing

  /** A catalog product. `recordId` is the optional `_id` field: catalog
      products are identified by `id`, and `_id` may be missing. */
  datatype Product = Product(
    id: int,
    recordId: Option<string>,
    title: string,
    thumbnail: string,
    price: real,
    discountPercentage: real)

  /** `{ ...product, quantity }`: the product's fields at the time of the first add, plus a quantity. */
  datatype CartLine = CartLine(product: Product, quantity: int)

  type Cart = seq<CartLine>

  /** The names the provider's context value exposes. */
  const ContextMembers: set<string> := {"cartItems", "addToCart", "removeFromCart", "clearCart", "getCartTotal"}

  /** The state the provider starts with (`useState([])`). */
  const EmptyCart: Cart := []

  /** Some line carries the given product id. */
  predicate InCart(cart: Cart, id: int)
  {
    exists i :: 0 <= i < |cart| && cart[i].product.id == id
  }

  /** At most one line per product id. */
  predicate UniqueIds(cart: Cart)
  {
    forall i, j :: 0 <= i < j < |cart| ==> cart[i].product.id != cart[j].product.id
  }

  /** Every line holds at least one unit (the store itself does not enforce this; its callers do). */
  predicate PositiveQuantities(cart: Cart)
  {
    forall i :: 0 <= i < |cart| ==> cart[i].quantity >= 1
  }

  /** The lines that carry the given id, in cart order. */
  function LinesFor(cart: Cart, id: int): Cart
  {
    if |cart| == 0 then []
    else (if cart[0].product.id == id then [cart[0]] else []) + LinesFor(cart[1..], id)
  }

  /** `prevItems.find(item => item.id === id)`: the index of the first line with that id. */
  function FindLine(cart: Cart, id: int): (r: Option<nat>)
    ensures r.Some? ==> r.value < |cart| && cart[r.value].product.id == id
    ensures r.Some? ==> forall i :: 0 <= i < r.value ==> cart[i].product.id != id
    ensures r.None? <==> !InCart(cart, id)
  {
    if |cart| == 0 then None
    else if cart[0].product.id == id then Some(0)
    else
      match FindLine(cart[1..], id)
      case None => None
      case Some(k) => Some(k + 1)
  }

  /** The per-line update of the merge branch: raise the quantity of a line with that id. */
  function Bump(line: CartLine, id: int, quantity: int): CartLine
  {
    if line.product.id == id then line.(quantity := line.quantity + quantity) else line
  }

  /** `prevItems.map(...)` of the merge branch. */
  function BumpAll(cart: Cart, id: int, quantity: int): (r: Cart)
    ensures |r| == |cart|
    ensures forall i :: 0 <= i < |cart| ==> r[i] == Bump(cart[i], id, quantity)
  {
    seq(|cart|, i requires 0 <= i < |cart| => Bump(cart[i], id, quantity))
  }

  /** `addToCart(product, quantity)`: merge into the existing line(s) with the
      product's id, or append a new line built from the product. */
  function AddToCart(cart: Cart, product: Product, quantity: int): (r: Cart)
    ensures InCart(r, product.id)
    ensures InCart(cart, product.id) ==> |r| == |cart|
    ensures !InCart(cart, product.id) ==> r == cart + [CartLine(product, quantity)]
  {
    if FindLine(cart, product.id).Some? then BumpAll(cart, product.id, quantity)
    else
      var r := cart + [CartLine(product, quantity)];
      assert r[|cart|].product.id == product.id;
      r
  }

  /** `addToCart(product)` with the quantity argument omitted defaults to 1. */
  function AddToCartDefault(cart: Cart, product: Product, quantity: Option<int>): (r: Cart)
    ensures quantity.None? ==> r == AddToCart(cart, product, 1)
    ensures quantity.Some? ==> r == AddToCart(cart, product, quantity.value)
  {
    AddToCart(cart, product, quantity.GetOr(1))
  }

  /** `removeFromCart(productId)`: keep exactly the lines whose id differs. */
  function RemoveFromCart(cart: Cart, id: int): (r: Cart)
    ensures |r| <= |cart|
    ensures !InCart(r, id)
    ensures !InCart(cart, id) ==> r == cart
  {
    if |cart| == 0 then []
    else (if cart[0].product.id != id then [cart[0]] else []) + RemoveFromCart(cart[1..], id)
  }

  /** `clearCart()`. */
  function ClearCart(cart: Cart): (r: Cart)
    ensures |r| == 0
  {
    []
  }

  /** One line's contribution to the total: discounted unit price times quantity. */
  function LineAmount(line: CartLine): (r: real)
    ensures line.quantity == 0 ==> r == 0.0
    ensures SensibleLine(line) ==> 0.0 <= r <= line.product.price * (line.quantity as real)
  {
    var u := UnitPrice(line);
    var q := line.quantity as real;
    if SensibleLine(line) then Pricing.ScaleBound(u, line.product.price, q); u * q else u * q
  }

  /** A non-negative price, a discount between 0 and 100 and a non-negative quantity. */
  predicate SensibleLine(line: CartLine)
  {
    0.0 <= line.product.price && 0.0 <= line.product.discountPercentage <= 100.0 && line.quantity >= 0
  }

  /** The reference total: the sum of the line amounts. */
  function Total(cart: Cart): (t: real)
    ensures |cart| == 0 ==> t == 0.0
    ensures (forall i :: 0 <= i < |cart| ==> SensibleLine(cart[i])) ==> t >= 0.0
  {
    if |cart| == 0 then 0.0 else LineAmount(cart[0]) + Total(cart[1..])
  }

  /** `getCartTotal()`: the left-to-right `reduce` from 0. */
  method GetCartTotal(cart: Cart) returns (total: real)
    ensures total == Total(cart)
  {
    total := 0.0;
    var i := 0;
    while i < |cart|
      invariant 0 <= i <= |cart|
      invariant total == Total(cart[..i])
    {
      TotalAppend(cart[..i], [cart[i]]);
      assert cart[..i + 1] == cart[..i] + [cart[i]];
      total := total + LineAmount(cart[i]);
      i := i + 1;
    }
    assert cart[..i] == cart;
  }

  // ---------------------------------------------------------------- totals

  /** The total is additive over concatenation. */
  lemma {:induction false} TotalAppend(a: Cart, b: Cart)
    ensures Total(a + b) == Total(a) + Total(b)
  {
    if |a| == 0 {
      assert a + b == b;
    } else {
      assert (a + b)[1..] == a[1..] + b;
      TotalAppend(a[1..], b);
    }
  }

  /** The empty cart totals 0, and appending a line adds exactly its amount. */
  lemma TotalOfEmptyAndAppend(cart: Cart, line: CartLine)
    ensures Total(EmptyCart) == 0.0
    ensures Total(cart + [line]) == Total(cart) + LineAmount(line)
  {
    TotalAppend(cart, [line]);
  }

  /** The total splits into the lines of one product and the rest, so removing a
      product subtracts exactly its lines' amounts. */
  lemma {:induction false} TotalSplitsById(cart: Cart, id: int)
    ensures Total(cart) == Total(RemoveFromCart(cart, id)) + Total(LinesFor(cart, id))
  {
    if |cart| > 0 {
      TotalSplitsById(cart[1..], id);
      var head := if cart[0].product.id != id then [cart[0]] else [];
      var mine := if cart[0].product.id == id then [cart[0]] else [];
      TotalAppend(head, RemoveFromCart(cart[1..], id));
      TotalAppend(mine, LinesFor(cart[1..], id));
    }
  }

  /** The given lines with every quantity set to q: what a merge of q units adds to them. */
  function WithQuantity(lines: Cart, quantity: int): (r: Cart)
    ensures |r| == |lines|
    ensures forall i :: 0 <= i < |lines| ==> r[i] == lines[i].(quantity := quantity)
  {
    seq(|lines|, i requires 0 <= i < |lines| => lines[i].(quantity := quantity))
  }

  /** Merging q more units into the lines of one id adds, for each of them, q units at that line's own price. */
  lemma {:induction false} TotalBumpAll(cart: Cart, id: int, quantity: int)
    ensures Total(BumpAll(cart, id, quantity)) == Total(cart) + Total(WithQuantity(LinesFor(cart, id), quantity))
  {
    if |cart| > 0 {
      var r := BumpAll(cart, id, quantity);
      assert r[1..] == BumpAll(cart[1..], id, quantity);
      TotalBumpAll(cart[1..], id, quantity);
      BumpAmount(cart[0], id, quantity);
      var head := if cart[0].product.id == id then [cart[0]] else [];
      assert WithQuantity(LinesFor(cart, id), quantity)
        == WithQuantity(head, quantity) + WithQuantity(LinesFor(cart[1..], id), quantity);
      TotalAppend(WithQuantity(head, quantity), WithQuantity(LinesFor(cart[1..], id), quantity));
    }
  }

  /** The discounted unit price of a line. */
  function UnitPrice(line: CartLine): real
  {
    Pricing.DiscountedPrice(line.product.price, line.product.discountPercentage)
  }

  /** Bumping a line of that id adds the amount of the added units at the line's own price. */
  lemma BumpAmount(line: CartLine, id: int, quantity: int)
    ensures LineAmount(Bump(line, id, quantity))
      == LineAmount(line) + (if line.product.id == id then LineAmount(line.(quantity := quantity)) else 0.0)
  {
    if line.product.id == id {
      var u := UnitPrice(line);
      assert LineAmount(Bump(line, id, quantity)) == u * ((line.quantity + quantity) as real);
      assert u * ((line.quantity + quantity) as real) == u * (line.quantity as real) + u * (quantity as real);
    }
  }

  /** How an add changes the total: a new line adds its own amount, a merge adds
      the added quantity at the unit price of the line already in the cart. */
  lemma TotalAfterAdd(cart: Cart, product: Product, quantity: int)
    ensures !InCart(cart, product.id) ==>
      Total(AddToCart(cart, product, quantity)) == Total(cart) + LineAmount(CartLine(product, quantity))
    ensures InCart(cart, product.id) ==>
      Total(AddToCart(cart, product, quantity)) == Total(cart) + Total(WithQuantity(LinesFor(cart, product.id), quantity))
  {
    if InCart(cart, product.id) {
      TotalBumpAll(cart, product.id, quantity);
    } else {
      TotalAppend(cart, [CartLine(product, quantity)]);
    }
  }

  /** Clearing empties the cart whatever it held: no product remains and the total is 0. */
  lemma ClearEmpties(cart: Cart, id: int)
    ensures ClearCart(cart) == EmptyCart
    ensures !InCart(ClearCart(cart), id)
    ensures Total(ClearCart(cart)) == 0.0
  {
  }

  // ------------------------------------------------------------------ adds

  /** Re-adding a product keeps the number of lines, raises each of its lines by
      exactly the added quantity (keeping the first snapshot), and keeps every other line. */
  lemma AddMergesExisting(cart: Cart, product: Product, quantity: int)
    requires InCart(cart, product.id)
    ensures var r := AddToCart(cart, product, quantity);
      && |r| == |cart|
      && (forall i :: 0 <= i < |cart| && cart[i].product.id == product.id ==>
            r[i] == cart[i].(quantity := cart[i].quantity + quantity))
      && (forall i :: 0 <= i < |cart| && cart[i].product.id != product.id ==> r[i] == cart[i])
  {
  }

  /** Adding a product not yet in the cart appends exactly one line with the
      product's fields and the given quantity, after the unchanged old lines. */
  lemma AddAppendsNew(cart: Cart, product: Product, quantity: int)
    requires !InCart(cart, product.id)
    ensures var r := AddToCart(cart, product, quantity);
      && |r| == |cart| + 1
      && r[..|cart|] == cart
      && r[|cart|] == CartLine(product, quantity)
  {
  }

  /** An add changes no line whose id differs from the product's, at any position. */
  lemma AddLeavesOtherLines(cart: Cart, product: Product, quantity: int)
    ensures var r := AddToCart(cart, product, quantity);
      forall i :: 0 <= i < |cart| && cart[i].product.id != product.id ==> r[i] == cart[i]
  {
  }

  /** An add leaves the lines of every other product exactly as they were, in order. */
  lemma AddLeavesOtherProducts(cart: Cart, product: Product, quantity: int, other: int)
    requires other != product.id
    ensures LinesFor(AddToCart(cart, product, quantity), other) == LinesFor(cart, other)
  {
    if InCart(cart, product.id) {
      LinesForBumpAllOther(cart, product.id, quantity, other);
    } else {
      LinesForAppend(cart, [CartLine(product, quantity)], other);
    }
  }

  lemma {:induction false} LinesForAppend(a: Cart, b: Cart, id: int)
    ensures LinesFor(a + b, id) == LinesFor(a, id) + LinesFor(b, id)
  {
    if |a| == 0 {
      assert a + b == b;
    } else {
      var head: Cart := if a[0].product.id == id then [a[0]] else [];
      assert (a + b)[0] == a[0];
      assert (a + b)[1..] == a[1..] + b;
      LinesForAppend(a[1..], b, id);
      assert LinesFor(a + b, id) == head + LinesFor(a[1..] + b, id);
      assert LinesFor(a, id) == head + LinesFor(a[1..], id);
    }
  }

  lemma {:induction false} LinesForBumpAllOther(cart: Cart, id: int, quantity: int, other: int)
    requires other != id
    ensures LinesFor(BumpAll(cart, id, quantity), other) == LinesFor(cart, other)
  {
    if |cart| > 0 {
      assert BumpAll(cart, id, quantity)[1..] == BumpAll(cart[1..], id, quantity);
      LinesForBumpAllOther(cart[1..], id, quantity, other);
    }
  }

  /** Unique ids survive an add: there is never more than one line per product. */
  lemma AddKeepsIdsUnique(cart: Cart, product: Product, quantity: int)
    requires UniqueIds(cart)
    ensures UniqueIds(AddToCart(cart, product, quantity))
  {
    var r := AddToCart(cart, product, quantity);
    if !InCart(cart, product.id) {
      forall i, j | 0 <= i < j < |r|
        ensures r[i].product.id != r[j].product.id
      {
        if j == |cart| {
          assert r[i] == cart[i];
        }
      }
    }
  }

  /** Two adds of the same product merge into one add of the summed quantity. */
  lemma AddTwiceIsOneAdd(cart: Cart, product: Product, again: Product, q1: int, q2: int)
    requires again.id == product.id
    ensures AddToCart(AddToCart(cart, product, q1), again, q2) == AddToCart(cart, product, q1 + q2)
  {
    var once := AddToCart(cart, product, q1);
    assert InCart(once, product.id) by {
      if !InCart(cart, product.id) {
        assert once[|cart|].product.id == product.id;
      }
    }
  }

  /** Starting without the product, two adds leave exactly one line for it, holding q1 + q2. */
  lemma AddTwiceSingleLine(cart: Cart, product: Product, q1: int, q2: int)
    requires !InCart(cart, product.id)
    ensures LinesFor(AddToCart(AddToCart(cart, product, q1), product, q2), product.id)
      == [CartLine(product, q1 + q2)]
  {
    AddTwiceIsOneAdd(cart, product, product, q1, q2);
    LinesForAppend(cart, [CartLine(product, q1 + q2)], product.id);
    LinesForAbsent(cart, product.id);
  }

  /** A cart holds an id iff its first line or its tail does. */
  lemma InCartCons(cart: Cart, id: int)
    requires |cart| > 0
    ensures InCart(cart, id) <==> cart[0].product.id == id || InCart(cart[1..], id)
  {
    if InCart(cart[1..], id) {
      var i :| 0 <= i < |cart[1..]| && cart[1..][i].product.id == id;
      assert cart[i + 1] == cart[1..][i];
    }
    if InCart(cart, id) && cart[0].product.id != id {
      var i :| 0 <= i < |cart| && cart[i].product.id == id;
      assert cart[1..][i - 1] == cart[i];
    }
  }

  lemma {:induction false} LinesForAbsent(cart: Cart, id: int)
    requires !InCart(cart, id)
    ensures LinesFor(cart, id) == []
  {
    if |cart| > 0 {
      InCartCons(cart, id);
      LinesForAbsent(cart[1..], id);
    }
  }

  /** With unique ids, a product in the cart has exactly one line, and re-adding
      it raises that one line by exactly the added quantity. */
  lemma AddToUniqueCart(cart: Cart, product: Product, quantity: int)
    requires UniqueIds(cart) && InCart(cart, product.id)
    ensures |LinesFor(cart, product.id)| == 1
    ensures LinesFor(AddToCart(cart, product, quantity), product.id) == [Raise(LinesFor(cart, product.id)[0], quantity)]
  {
    var k := LineIndex(cart, product.id);
    LinesForSingle(cart, product.id, k);
    MergeIntoUniqueLine(cart, product, quantity, k);
  }

  /** A line with its quantity raised. */
  function Raise(line: CartLine, quantity: int): CartLine
  {
    line.(quantity := line.quantity + quantity)
  }

  /** An index of a line with the id, for a cart that holds it. */
  lemma LineIndex(cart: Cart, id: int) returns (k: nat)
    requires InCart(cart, id)
    ensures k < |cart| && cart[k].product.id == id
  {
    k :| k < |cart| && cart[k].product.id == id;
  }

  /** Re-adding the product of line k in a cart with unique ids leaves exactly that line, raised. */
  lemma MergeIntoUniqueLine(cart: Cart, product: Product, quantity: int, k: nat)
    requires UniqueIds(cart) && k < |cart| && cart[k].product.id == product.id
    ensures LinesFor(AddToCart(cart, product, quantity), product.id) == [Raise(cart[k], quantity)]
  {
    assert FindLine(cart, product.id).Some?;
    var r := BumpAll(cart, product.id, quantity);
    assert AddToCart(cart, product, quantity) == r;
    BumpAllKeepsUnique(cart, product.id, quantity);
    LinesForSingle(r, product.id, k);
  }

  /** A merge changes no product, so unique ids stay unique. */
  lemma BumpAllKeepsUnique(cart: Cart, id: int, quantity: int)
    requires UniqueIds(cart)
    ensures UniqueIds(BumpAll(cart, id, quantity))
  {
    var r := BumpAll(cart, id, quantity);
    forall i, j | 0 <= i < j < |r|
      ensures r[i].product.id != r[j].product.id
    {
      assert r[i].product == cart[i].product && r[j].product == cart[j].product;
    }
  }

  /** In a cart with unique ids, the lines for the id at position k are just that line. */
  lemma {:induction false} LinesForSingle(cart: Cart, id: int, k: nat)
    requires UniqueIds(cart) && k < |cart| && cart[k].product.id == id
    ensures LinesFor(cart, id) == [cart[k]]
  {
    assert cart == cart[..k] + [cart[k]] + cart[k + 1..];
    LinesForAppend(cart[..k] + [cart[k]], cart[k + 1..], id);
    LinesForAppend(cart[..k], [cart[k]], id);
    forall i | 0 <= i < |cart[..k]|
      ensures cart[..k][i].product.id != id
    {
      assert cart[..k][i] == cart[i];
    }
    var after := cart[k + 1..];
    forall i | 0 <= i < |after|
      ensures after[i].product.id != id
    {
      assert after[i] == cart[k + 1 + i];
    }
    LinesForAbsent(cart[..k], id);
    LinesForAbsent(cart[k + 1..], id);
  }

  /** Adding at least one unit keeps every line at one unit or more, and so does removing. */
  lemma PositiveQuantitiesPreserved(cart: Cart, product: Product, quantity: int, id: int)
    requires PositiveQuantities(cart) && quantity >= 1
    ensures PositiveQuantities(AddToCart(cart, product, quantity))
    ensures PositiveQuantities(RemoveFromCart(cart, id))
  {
    RemoveKeepsExactlyOthers(cart, id);
    var r := RemoveFromCart(cart, id);
    forall i | 0 <= i < |r|
      ensures r[i].quantity >= 1
    {
      assert r[i] in cart;
    }
  }

  // --------------------------------------------------------------- removes

  /** Removal is a filter: it distributes over concatenation, so the kept lines stay in their order. */
  lemma {:induction false} RemoveDistributes(a: Cart, b: Cart, id: int)
    ensures RemoveFromCart(a + b, id) == RemoveFromCart(a, id) + RemoveFromCart(b, id)
  {
    if |a| == 0 {
      assert a + b == b;
    } else {
      assert (a + b)[1..] == a[1..] + b;
      RemoveDistributes(a[1..], b, id);
    }
  }

  /** Removal keeps exactly the lines of other products: no line of the removed id
      survives, and every other line of the cart is still there. */
  lemma {:induction false} RemoveKeepsExactlyOthers(cart: Cart, id: int)
    ensures forall l :: l in RemoveFromCart(cart, id) <==> l in cart && l.product.id != id
    ensures !InCart(RemoveFromCart(cart, id), id)
  {
    if |cart| > 0 {
      RemoveKeepsExactlyOthers(cart[1..], id);
      var head := if cart[0].product.id != id then [cart[0]] else [];
      assert RemoveFromCart(cart, id) == head + RemoveFromCart(cart[1..], id);
      assert forall l :: l in cart <==> l == cart[0] || l in cart[1..];
    }
  }

  /** Removing an id that no line carries changes nothing. */
  lemma {:induction false} RemoveAbsentIsNoOp(cart: Cart, id: int)
    requires !InCart(cart, id)
    ensures RemoveFromCart(cart, id) == cart
  {
    if |cart| > 0 {
      InCartCons(cart, id);
      RemoveAbsentIsNoOp(cart[1..], id);
      assert cart == [cart[0]] + cart[1..];
    }
  }

  /** Removal leaves the lines of every other product exactly as they were. */
  lemma {:induction false} RemoveLeavesOtherProducts(cart: Cart, id: int, other: int)
    requires other != id
    ensures LinesFor(RemoveFromCart(cart, id), other) == LinesFor(cart, other)
  {
    if |cart| > 0 {
      RemoveLeavesOtherProducts(cart[1..], id, other);
      var head := if cart[0].product.id != id then [cart[0]] else [];
      LinesForAppend(head, RemoveFromCart(cart[1..], id), other);
    }
  }

  /** Removing a product just added to a cart that lacked it gives back the old cart. */
  lemma RemoveUndoesNewAdd(cart: Cart, product: Product, quantity: int)
    requires !InCart(cart, product.id)
    ensures RemoveFromCart(AddToCart(cart, product, quantity), product.id) == cart
  {
    RemoveDistributes(cart, [CartLine(product, quantity)], product.id);
    RemoveAbsentIsNoOp(cart, product.id);
  }

  /** Removing a product after adding it is the same as removing it without the add. */
  lemma RemoveAfterAdd(cart: Cart, product: Product, quantity: int)
    ensures RemoveFromCart(AddToCart(cart, product, quantity), product.id) == RemoveFromCart(cart, product.id)
  {
    if InCart(cart, product.id) {
      RemoveBumpAll(cart, product.id, quantity);
    } else {
      RemoveUndoesNewAdd(cart, product, quantity);
      RemoveAbsentIsNoOp(cart, product.id);
    }
  }

  lemma {:induction false} RemoveBumpAll(cart: Cart, id: int, quantity: int)
    ensures RemoveFromCart(BumpAll(cart, id, quantity), id) == RemoveFromCart(cart, id)
  {
    if |cart| > 0 {
      assert BumpAll(cart, id, quantity)[1..] == BumpAll(cart[1..], id, quantity);
      RemoveBumpAll(cart[1..], id, quantity);
    }
  }

  /** Two products added, then one removed: the total is that of the remaining product alone. */
  lemma TwoProductsOneRemoved(p1: Product, p2: Product, q1: int, q2: int)
    requires p1.id != p2.id
    ensures var cart := AddToCart(AddToCart(EmptyCart, p1, q1), p2, q2);
      Total(RemoveFromCart(cart, p1.id)) == LineAmount(CartLine(p2, q2))
  {
    var c1 := AddToCart(EmptyCart, p1, q1);
    assert c1 == [CartLine(p1, q1)];
    assert !InCart(c1, p2.id);
    var cart := AddToCart(c1, p2, q2);
    assert cart == [CartLine(p1, q1), CartLine(p2, q2)];
    assert cart[1..] == [CartLine(p2, q2)];
    assert cart[1..][1..] == [];
    assert RemoveFromCart(cart[1..], p1.id) == [CartLine(p2, q2)];
    assert RemoveFromCart(cart, p1.id) == [CartLine(p2, q2)];
  }

  /** Price 100 at 10% off: one unit totals 90, two more merge into 3 units totalling 270. */
  lemma NinetyThenTwoHundredSeventy(p: Product)
    requires p.price == 100.0 && p.discountPercentage == 10.0
    ensures Total(AddToCart(EmptyCart, p, 1)) == 90.0
    ensures AddToCart(AddToCart(EmptyCart, p, 1), p, 2) == [CartLine(p, 3)]
    ensures Total(AddToCart(AddToCart(EmptyCart, p, 1), p, 2)) == 270.0
  {
    assert AddToCart(EmptyCart, p, 1) == [CartLine(p, 1)];
    AddTwiceIsOneAdd(EmptyCart, p, p, 1, 2);
    assert AddToCart(EmptyCart, p, 3) == [CartLine(p, 3)];
  }
}
