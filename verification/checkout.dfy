/**
 The checkout page's decisions (CheckoutPage.jsx): which address is selected
 once the address list arrives, the order payload built from the cart, the
 guards that refuse to place an order, clearing the cart only after the server
 accepted the order, and when the Place Order button is disabled. The HTTP
 calls are inputs: the address list, and the outcome of the order request.
 */
module Checkout {
  import opened Wrappers
  import CartStore
  import CartItemRow

  /** A saved shipping address; `id` is its `_id`. */
  datatype Address = Address(
    id: string,
    addressLine: string,
    city: string,
    state: string,
    postalCode: string,
    isDefault: bool)

  // ------------------------------------------------------- address choice

  /** `list.find(a => a.isDefault)`: the index of the first default address. */
  function FirstDefault(list: seq<Address>): (r: Option<nat>)
    ensures r.Some? ==> r.value < |list| && list[r.value].isDefault
    ensures r.Some? ==> forall i :: 0 <= i < r.value ==> !list[i].isDefault
    ensures r.None? ==> forall i :: 0 <= i < |list| ==> !list[i].isDefault
  {
    if |list| == 0 then None
    else if list[0].isDefault then Some(0)
    else
      match FirstDefault(list[1..])
      case None => None
      case Some(k) => Some(k + 1)
  }

  /** The selection once the address list has loaded: the first default address,
      else the first address; an empty list leaves the selection as it was. */
  function SelectionAfterLoad(list: seq<Address>, current: Option<string>): (r: Option<string>)
    ensures |list| == 0 ==> r == current
    ensures (exists i :: 0 <= i < |list| && list[i].isDefault) ==>
      exists k :: 0 <= k < |list| && list[k].isDefault && r == Some(list[k].id)
        && forall i :: 0 <= i < k ==> !list[i].isDefault
    ensures |list| > 0 && (forall i :: 0 <= i < |list| ==> !list[i].isDefault) ==> r == Some(list[0].id)
  {
    if |list| > 0 then
      match FirstDefault(list)
      case Some(k) => Some(list[k].id)
      case None => Some(list[0].id)
    else current
  }

  /** `addresses.find(a => a._id === selectedAddressId)`: the first address with the
      selected id; no address matches a missing selection. */
  function FindAddress(list: seq<Address>, selected: Option<string>): (r: Option<Address>)
    ensures r.Some? ==> r.value in list && selected == Some(r.value.id)
    ensures r.Some? ==> exists k :: 0 <= k < |list| && list[k] == r.value && NoEarlierMatch(list, selected, k)
    ensures r.None? <==> forall i :: 0 <= i < |list| ==> selected != Some(list[i].id)
  {
    if |list| == 0 then None
    else if selected == Some(list[0].id) then Some(list[0])
    else
      var rest := FindAddress(list[1..], selected);
      assert rest.Some? ==> exists k :: 0 <= k < |list| && list[k] == rest.value && NoEarlierMatch(list, selected, k) by {
        if rest.Some? {
          var k :| 0 <= k < |list[1..]| && list[1..][k] == rest.value && NoEarlierMatch(list[1..], selected, k);
          assert list[k + 1] == rest.value;
          forall i | 0 <= i < k + 1 ensures selected != Some(list[i].id) {
            if i > 0 {
              assert list[i] == list[1..][i - 1];
            }
          }
          assert NoEarlierMatch(list, selected, k + 1);
        }
      }
      rest
  }

  /** No address before index k carries the selected id. */
  predicate NoEarlierMatch(list: seq<Address>, selected: Option<string>, k: nat)
    requires k <= |list|
  {
    forall i :: 0 <= i < k ==> selected != Some(list[i].id)
  }

  /** On first load (nothing selected yet) a non-empty list always yields a selected
      address, and an empty list leaves none selected. */
  lemma LoadedSelectionResolves(list: seq<Address>)
    ensures |list| > 0 ==> FindAddress(list, SelectionAfterLoad(list, None)).Some?
    ensures |list| == 0 ==> FindAddress(list, SelectionAfterLoad(list, None)).None?
  {
    if |list| > 0 {
      var sel := SelectionAfterLoad(list, None);
      var k :| 0 <= k < |list| && sel == Some(list[k].id);
    }
  }

  /** Picking an address's radio button (`setSelectedAddressId(addr._id)`) selects
      an address with that id; with unique ids, exactly that address. */
  lemma RadioSelectsAddress(list: seq<Address>, k: nat)
    requires k < |list|
    requires forall i, j :: 0 <= i < j < |list| ==> list[i].id != list[j].id
    ensures FindAddress(list, Some(list[k].id)) == Some(list[k])
  {
    var r := FindAddress(list, Some(list[k].id));
    assert r.Some?;
    var i :| 0 <= i < |list| && list[i] == r.value;
  }

  // ------------------------------------------------------------- payload

  /** One ordered item: `{ productId: item._id, quantity: item.quantity }`. */
  datatype OrderItem = OrderItem(productId: Option<string>, quantity: int)

  /** The four address fields copied into the order. */
  datatype ShippingAddress = ShippingAddress(addressLine: string, city: string, postalCode: string, state: string)

  datatype Payload = Payload(orderItems: seq<OrderItem>, shippingAddress: ShippingAddress)

  /** `buildPayload()`: one item per cart line in cart order, and the selected address's fields. */
  function BuildPayload(cart: CartStore.Cart, address: Address): (p: Payload)
    ensures |p.orderItems| == |cart|
    ensures forall i :: 0 <= i < |cart| ==>
      p.orderItems[i] == OrderItem(cart[i].product.recordId, cart[i].quantity)
    ensures p.shippingAddress.addressLine == address.addressLine
    ensures p.shippingAddress.city == address.city
    ensures p.shippingAddress.postalCode == address.postalCode
    ensures p.shippingAddress.state == address.state
  {
    Payload(
      seq(|cart|, i requires 0 <= i < |cart| => OrderItem(cart[i].product.recordId, cart[i].quantity)),
      ShippingAddress(address.addressLine, address.city, address.postalCode, address.state))
  }

  /** The payload names products by their `_id` field, not by the `id` the cart is
      keyed on: carts that differ only in catalog ids produce the same payload, and
      lines whose product has no `_id` are sent without a product id. */
  lemma PayloadIgnoresCatalogId(a: CartStore.Cart, b: CartStore.Cart, address: Address)
    requires |a| == |b|
    requires forall i :: 0 <= i < |a| ==>
      a[i].product.recordId == b[i].product.recordId && a[i].quantity == b[i].quantity
    ensures BuildPayload(a, address) == BuildPayload(b, address)
    ensures forall i :: 0 <= i < |a| && a[i].product.recordId.None? ==>
      BuildPayload(a, address).orderItems[i].productId.None?
  {
  }

  // --------------------------------------------------------- placing orders

  /** How the order request ended: created with an id, answered without an order
      object (reading its `_id` throws), or rejected with an optional server message. */
  datatype OrderResponse = Created(orderId: string) | CreatedWithoutOrder | Rejected(message: Option<string>)

  /** What one click on Place Order did: the request sent (if any), the cart
      afterwards, the alert shown (if any) and the page navigated to (if any). */
  datatype PlaceOrderResult = PlaceOrderResult(
    request: Option<Payload>,
    cart: CartStore.Cart,
    alert: Option<string>,
    navigateTo: Option<string>)

  const SelectAddressAlert: string := "Please select an address."
  const EmptyCartAlert: string := "Cart is empty."
  const OrderFailedAlert: string := "Failed to place the order. Please try again later."
  const OrderSuccessPath: string := "/order-success/"

  /** `err.response?.data?.message || fallback`: an empty message counts as missing. */
  function MessageOr(message: Option<string>, fallback: string): (r: string)
    ensures message.Some? && message.value != "" ==> r == message.value
    ensures message.None? || message == Some("") ==> r == fallback
  {
    if message.Some? && message.value != "" then message.value else fallback
  }

  /** `handlePlaceOrder()`: refuse without a selected address or with an empty cart,
      otherwise send the payload; the cart is cleared only when the order was created. */
  function HandlePlaceOrder(addresses: seq<Address>, selected: Option<string>, cart: CartStore.Cart, response: OrderResponse): (r: PlaceOrderResult)
    ensures FindAddress(addresses, selected).None? ==>
      r == PlaceOrderResult(None, cart, Some(SelectAddressAlert), None)
    ensures FindAddress(addresses, selected).Some? && |cart| == 0 ==>
      r == PlaceOrderResult(None, cart, Some(EmptyCartAlert), None)
    ensures r.request.Some? <==> FindAddress(addresses, selected).Some? && |cart| > 0
    ensures r.request.Some? ==> r.request.value == BuildPayload(cart, FindAddress(addresses, selected).value)
    ensures r.request.Some? && response.Created? ==>
      r.cart == CartStore.EmptyCart && r.navigateTo == Some(OrderSuccessPath + response.orderId) && r.alert.None?
    ensures !(r.request.Some? && response.Created?) ==> r.cart == cart && r.navigateTo.None? && r.alert.Some?
    ensures r.request.Some? && response.Rejected? ==> r.alert == Some(MessageOr(response.message, OrderFailedAlert))
    ensures r.request.Some? && response.CreatedWithoutOrder? ==> r.alert == Some(OrderFailedAlert)
  {
    match FindAddress(addresses, selected)
    case None => PlaceOrderResult(None, cart, Some(SelectAddressAlert), None)
    case Some(address) =>
      if |cart| == 0 then PlaceOrderResult(None, cart, Some(EmptyCartAlert), None)
      else
        var payload := BuildPayload(cart, address);
        match response
        case Created(orderId) =>
          PlaceOrderResult(Some(payload), CartStore.ClearCart(cart), None, Some(OrderSuccessPath + orderId))
        case CreatedWithoutOrder =>
          PlaceOrderResult(Some(payload), cart, Some(OrderFailedAlert), None)
        case Rejected(message) =>
          PlaceOrderResult(Some(payload), cart, Some(MessageOr(message, OrderFailedAlert)), None)
  }

  /** The Place Order button's `disabled` attribute: disabled while an order is in
      flight, and otherwise enabled only with a non-empty cart and an address. */
  function PlaceOrderDisabled(placingOrder: bool, cart: CartStore.Cart, selectedAddress: Option<Address>): (b: bool)
    ensures placingOrder ==> b
    ensures !b <==> |cart| > 0 && selectedAddress.Some? && !placingOrder
  {
    placingOrder || |cart| == 0 || selectedAddress.None?
  }

  /** When no order is in flight, the button is enabled exactly when a click would
      send the order, whatever the server then answers. */
  lemma ButtonMatchesGuards(addresses: seq<Address>, selected: Option<string>, cart: CartStore.Cart, response: OrderResponse)
    ensures !PlaceOrderDisabled(false, cart, FindAddress(addresses, selected))
      <==> HandlePlaceOrder(addresses, selected, cart, response).request.Some?
    ensures PlaceOrderDisabled(true, cart, FindAddress(addresses, selected))
  {
  }

  /** A failed order leaves the cart exactly as it was, for any server answer other than a created order. */
  lemma FailureKeepsCart(addresses: seq<Address>, selected: Option<string>, cart: CartStore.Cart, response: OrderResponse)
    requires !response.Created?
    ensures HandlePlaceOrder(addresses, selected, cart, response).cart == cart
  {
  }

  // ---------------------------------------------------------- order summary

  /** The order summary: a notice for an empty cart, otherwise one row per line and
      the total. `RenderFails` is a render that throws: without an error boundary
      React unmounts the tree, so nothing of the page, the Place Order button
      included, is shown. */
  datatype Summary = EmptyNotice | Lines(rows: seq<CartItemRow.RowView>, total: real) | RenderFails

  /** What destructuring `cartTotal` from the cart context yields: the context value
      has no member of that name, so the page reads `undefined`. */
  function ContextCartTotal(cart: CartStore.Cart): (r: Option<real>)
    ensures r.None?
  {
    if "cartTotal" in CartStore.ContextMembers then Some(CartStore.Total(cart)) else None
  }

  /** The rows of the summary, one `CartItemRow` per line. */
  function SummaryRows(cart: CartStore.Cart): (rows: seq<CartItemRow.RowView>)
    ensures |rows| == |cart|
    ensures forall i :: 0 <= i < |cart| ==> rows[i] == CartItemRow.Row(cart[i], true)
    ensures forall i :: 0 <= i < |cart| ==>
      rows[i].lineTotal == CartStore.LineAmount(cart[i]) && rows[i].quantity == cart[i].quantity
  {
    seq(|cart|, i requires 0 <= i < |cart| => CartItemRow.Row(cart[i], true))
  }

  /** The summary as written: `cartTotal.toFixed(2)` throws on the undefined total,
      so every non-empty cart makes the render fail. */
  function OrderSummary(cart: CartStore.Cart): (s: Summary)
    ensures |cart| == 0 <==> s.EmptyNotice?
    ensures |cart| > 0 <==> s.RenderFails?
  {
    if |cart| == 0 then EmptyNotice
    else
      match ContextCartTotal(cart)
      case None => RenderFails
      case Some(total) => Lines(SummaryRows(cart), total)
  }

  /** The summary as evidently intended: the total is the store's `getCartTotal()`,
      which is exactly the sum of the line totals the rows show. */
  function OrderSummaryIntended(cart: CartStore.Cart): (s: Summary)
    ensures |cart| == 0 <==> s.EmptyNotice?
    ensures !s.RenderFails?
    ensures s.Lines? ==> s.rows == SummaryRows(cart) && s.total == CartStore.Total(cart)
    ensures s.Lines? ==> s.total == CartItemRow.RowTotals(cart)
  {
    if |cart| == 0 then EmptyNotice
    else
      CartItemRow.RowsSumToCartTotal(cart);
      Lines(SummaryRows(cart), CartStore.Total(cart))
  }

  /** For every non-empty cart the page as written fails to render, while the
      intended summary shows the rows and the store's total. */
  lemma SummaryRenderFails(cart: CartStore.Cart)
    requires |cart| > 0
    ensures OrderSummary(cart) == RenderFails
    ensures OrderSummaryIntended(cart) == Lines(SummaryRows(cart), CartStore.Total(cart))
  {
  }

  /** As written, whenever the page renders at all its cart is empty, so the Place
      Order button is disabled and a click would send no order. */
  lemma AsWrittenNoOrderIsSent(addresses: seq<Address>, selected: Option<string>, cart: CartStore.Cart,
                               placingOrder: bool, response: OrderResponse)
    requires !OrderSummary(cart).RenderFails?
    ensures PlaceOrderDisabled(placingOrder, cart, FindAddress(addresses, selected))
    ensures HandlePlaceOrder(addresses, selected, cart, response).request.None?
  {
  }
}
