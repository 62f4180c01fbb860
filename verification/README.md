# Storefront client core, in Dafny

A model of the client-side logic of a small web storefront. The storefront has:
- a shared cart store (add, merge, remove, clear and total);
- the discount rules for prices and badges;
- a product grid and a product page, each with a quantity selector and an add-to-cart button;
- a checkout page: address choice, the order payload, the guards before an order is placed, and the order summary;
- a registration form and a login form, with their validation rules;
- a star-rating row;
- an order history list.

Each React handler becomes a pure function from the state before to the state after. Anything that arrives over the network becomes a parameter: the address list, the order response, the login outcome and the orders fetched. Prices and discounts are exact `real` numbers. JavaScript's specific behaviours are written out:
- `Math.round` rounds halves up;
- `x || d` treats `0` and `""` as missing;
- `%` truncates towards zero;
- `\s` and `\d` use ECMAScript's character sets;
- an unanchored regular expression accepts any string that contains a match.

Modules, one per file:
- `Wrappers`: the `Option` type.
- `Pricing`: the discounted price and the badge rule.
- `CartStore`: the cart.
- `CartItemRow`: the cart row view.
- `ProductList`: the product grid.
- `ProductDetail`: the product page.
- `Checkout`: the checkout page.
- `EmailPattern`: the email regular expression, decided by a one-pass scan that is proved equal to its substring definition.
- `RegisterForm`: the registration form.
- `LoginForm`: the login form.
- `StarRating`: the star row.
- `OrderHistory`: the order history list.

Two inconsistencies in the code are modelled as they are:
- The order payload names each product by its `_id` field (`Product.recordId`, absent on catalog products), while the cart keys its lines on `id`.
- The checkout page reads `cartTotal` from the cart store, which exports only `getCartTotal`. The payload behaviour is kept as written. For the total, see Findings.

The cart store itself has no stock check: an add of any quantity is accepted. The guards that keep quantities at 1 or more live in the callers (the grid and the product page), and the model proves they hold there. The code has no stock guard anywhere, and it never rounds a total to two decimals except when formatting it for display.

## Model

| member | source | states |
|---|---|---|
| Pricing.MathRound | src/components/CartItemRow.jsx:4 | The result is the integer nearest to x, with halves going up. |
| Pricing.DiscountedPrice | src/components/CartItemRow.jsx:5 | A 0% discount keeps the price and a 100% discount gives 0. For a non-negative price and a discount in 0..100, the result lies between 0 and the price. |
| Pricing.HasDiscount | src/components/CartItemRow.jsx:4 | The badge shows exactly when the discount is at least 0.5%. |
| Pricing.SuppressedBadgeStillDiscounts | src/components/CartItemRow.jsx:4-5 | A discount strictly between 0 and 0.5% shows no badge, yet still lowers the unit price. |
| CartStore.AddToCart | src/context/CartContext.js:12-27 | After an add the product is in the cart. Re-adding a product in the cart keeps the number of lines. A new product is appended as one line with the product and quantity, after the old lines. |
| CartStore.RemoveFromCart | src/context/CartContext.js:29-33 | No line of the removed id remains, and the cart never grows. Removing an id not in the cart changes nothing. |
| CartStore.ClearCart | src/context/CartContext.js:35-37 | The cart is empty afterwards. |
| CartStore.LineAmount | src/context/CartContext.js:41-42 | A line of quantity 0 contributes 0. With a non-negative price, a discount in 0..100 and a non-negative quantity, the amount lies between 0 and the list price times the quantity. |
| CartStore.Total | src/context/CartContext.js:39-44 | The empty cart totals 0. With every line sensibly priced (non-negative price and quantity, discount in 0..100), the total is never negative. |
| CartStore.FindLine | src/context/CartContext.js:14 | Returns the first line with the product id, or nothing exactly when no line carries the id. |
| CartStore.BumpAll | src/context/CartContext.js:17-21 | Same length as the cart; each line of the id gains the quantity and every other line is unchanged. |
| CartStore.AddToCartDefault | src/context/CartContext.js:12 | An omitted quantity adds 1; a given quantity adds that quantity. |
| CartStore.GetCartTotal | src/context/CartContext.js:39-44 | The left-to-right reduce from 0 equals the sum of the line amounts (discounted unit price times quantity). |
| CartStore.TotalAppend | src/context/CartContext.js:39-44 | The total of two concatenated carts is the sum of their totals. |
| CartStore.TotalOfEmptyAndAppend | src/context/CartContext.js:39-44 | The empty cart totals 0, and appending a line adds exactly that line's amount. |
| CartStore.TotalSplitsById | src/context/CartContext.js:29-33 | The total equals the total after removing one product plus the total of that product's lines. |
| CartStore.TotalBumpAll | src/context/CartContext.js:17-21 | A merge adds, for each line of the id, the added units at that line's own stored price. |
| CartStore.BumpAmount | src/context/CartContext.js:19 | Bumping a line of the id adds the amount of the added units. Any other line keeps its amount. |
| CartStore.TotalAfterAdd | src/context/CartContext.js:12-27 | Adding a new product raises the total by its line amount. A merge raises it by the added units at the stored price(s). |
| CartStore.ClearEmpties | src/context/CartContext.js:35-37 | After clearing, the cart is empty, contains no product and totals 0. |
| CartStore.AddMergesExisting | src/context/CartContext.js:14-21 | Re-adding a product in the cart keeps the number of lines and raises that product's lines by the quantity. Nothing is appended. |
| CartStore.AddAppendsNew | src/context/CartContext.js:22-25 | Adding a product not in the cart keeps the old lines as a prefix and appends exactly one line with the product and quantity. |
| CartStore.AddLeavesOtherLines | src/context/CartContext.js:17-21 | An add changes no line whose id differs from the product's, at any position. |
| CartStore.AddLeavesOtherProducts | src/context/CartContext.js:12-27 | The lines of every other product are the same, in order, before and after an add. |
| CartStore.AddKeepsIdsUnique | src/context/CartContext.js:12-27 | If each id has at most one line before an add, the same holds after it. |
| CartStore.AddTwiceIsOneAdd | src/context/CartContext.js:12-27 | Adding q1 and then q2 of the same product equals one add of q1 + q2. |
| CartStore.AddTwiceSingleLine | src/context/CartContext.js:12-27 | Starting without the product, two adds leave exactly one line for it, holding q1 + q2. |
| CartStore.AddToUniqueCart | src/context/CartContext.js:14-21 | With unique ids, a product in the cart has exactly one line, and re-adding raises that line by the quantity. |
| CartStore.MergeIntoUniqueLine | src/context/CartContext.js:14-21 | With unique ids, re-adding the product of line k leaves exactly that line for the product, with its quantity raised by the amount added. |
| CartStore.PositiveQuantitiesPreserved | src/context/CartContext.js:12-33 | If every line holds at least one unit, that still holds after adding one or more units and after a removal. |
| CartStore.RemoveDistributes | src/context/CartContext.js:29-33 | Removal distributes over concatenation, so the kept lines keep their order. |
| CartStore.RemoveKeepsExactlyOthers | src/context/CartContext.js:29-33 | A line survives a removal exactly when it was in the cart with a different id. No line of the removed id remains. |
| CartStore.RemoveAbsentIsNoOp | src/context/CartContext.js:29-33 | Removing an id that no line carries returns the cart unchanged. |
| CartStore.RemoveLeavesOtherProducts | src/context/CartContext.js:29-33 | Removal leaves the lines of every other product as they were. |
| CartStore.RemoveUndoesNewAdd | src/context/CartContext.js:12-33 | Removing a product just added to a cart that lacked it gives back the original cart. |
| CartStore.RemoveAfterAdd | src/context/CartContext.js:12-33 | Add followed by remove of the same product equals the remove alone. |
| CartStore.RemoveBumpAll | src/context/CartContext.js:17-33 | Removing an id after merging into its lines equals removing it without the merge. |
| CartStore.TwoProductsOneRemoved | src/context/CartContext.js:12-44 | After adding two different products and removing the first, the total is the second product's line amount alone. |
| CartStore.NinetyThenTwoHundredSeventy | src/context/CartContext.js:12-44 | At price 100 and 10% off, one unit totals 90. Adding 2 more merges into one line of 3 units totalling 270. |
| CartItemRow.Row | src/components/CartItemRow.jsx:3-45 | The struck price shows exactly when the discount is at least 0.5%. The shown and struck prices depend on that case. The line total is the line amount. Quantity and the remove button are carried through. |
| CartItemRow.RowsSumToCartTotal | src/components/CartItemRow.jsx:35 | The rows' line totals add up to the store's cart total. |
| CartItemRow.ZeroDiscountRow | src/components/CartItemRow.jsx:20-35 | Without a discount the row shows the list price, no struck price, and list price times quantity. |
| CartItemRow.SuppressedDiscountStillCharged | src/components/CartItemRow.jsx:4-35 | Below 0.5% the row shows the list price unstruck, but its line total is less than list price times quantity. |
| ProductList.SelectedQuantity | src/components/ProductList.jsx:20 | A missing selection (or a recorded 0) reads as 1, and any other recorded value reads as itself. With valid selections the result is at least 1. |
| ProductList.HandleQuantityChange | src/components/ProductList.jsx:13-17 | A quantity below 1 changes nothing. Otherwise it is recorded for that product, and other products' selections are unchanged. Validity is preserved. |
| ProductList.Decrement | src/components/ProductList.jsx:105 | "-" records the shown quantity less one when the card shows at least 2, and otherwise changes nothing. Valid selections stay valid, and the card still shows at least 1. |
| ProductList.Increment | src/components/ProductList.jsx:115 | With valid selections, "+" records the shown quantity plus one for that product and changes nothing else. |
| ProductList.DecrementFromDefaultRejected | src/components/ProductList.jsx:105 | A card with no selection shows 1, and "-" leaves the selections as they were. |
| ProductList.IncrementThenDecrement | src/components/ProductList.jsx:105-115 | "+" followed by "-" returns the card to the quantity it showed. |
| ProductList.HandleAddToCart | src/components/ProductList.jsx:19-26 | The cart store's add receives the recorded selection, or 1 when there is none, whether or not the product is already in the cart. The "added" flag names the product. A new product is appended with that quantity. Positive quantities are preserved. |
| ProductList.Card | src/components/ProductList.jsx:61-98 | The badge shows iff the discount is at least 0.5%. The card shows the unit and list prices and the selected quantity. The total row appears exactly when the quantity exceeds 1 and shows the line amount. |
| ProductList.CardTotalIsWhatAddCosts | src/components/ProductList.jsx:61-63 | For a product not in the cart, the card's total row is exactly what its add button adds to the cart total. |
| ProductList.RunKeepsQuantitiesPositive | src/components/ProductList.jsx:13-26 | Under any sequence of "-", "+" and add clicks, every selection stays at least 1 and every cart line holds at least one unit. |
| ProductDetail.Initial | src/pages/ProductDetailPage.jsx:11-12 | The page starts at quantity 1 with the "added" flag off. |
| ProductDetail.HandleQuantityChange | src/pages/ProductDetailPage.jsx:36-40 | A new quantity of at least 1 is accepted. A new quantity below 1 keeps the old one, whatever it was. A quantity of at least 1 stays at least 1. |
| ProductDetail.HandleAddToCart | src/pages/ProductDetailPage.jsx:42-50 | Without a loaded product nothing changes. With one, exactly the page's quantity is added and the "added" flag is raised. |
| ProductDetail.MinusAtOneStaysOne | src/pages/ProductDetailPage.jsx:83 | "-" at quantity 1 leaves the quantity at 1 and the cart unchanged. |
| ProductDetail.RunKeepsQuantityPositive | src/pages/ProductDetailPage.jsx:36-50 | Under any clicks the quantity stays at least 1, and every cart line holds at least one unit. |
| ProductDetail.NoProductNoCartChange | src/pages/ProductDetailPage.jsx:42-50 | With no product loaded, no sequence of clicks changes the cart. |
| Checkout.FirstDefault | src/pages/CheckoutPage.jsx:34 | Returns the index of the first default address, or nothing exactly when no address is default. |
| Checkout.SelectionAfterLoad | src/pages/CheckoutPage.jsx:33-36 | The selection becomes the first default address, else the first address. An empty list keeps the previous selection. |
| Checkout.FindAddress | src/pages/CheckoutPage.jsx:63 | A found address carries the selected id and is the first address in the list that does. Nothing is found exactly when no address has that id. |
| Checkout.LoadedSelectionResolves | src/pages/CheckoutPage.jsx:33-63 | On first load a non-empty list always yields a selected address, and an empty list yields none. |
| Checkout.RadioSelectsAddress | src/pages/CheckoutPage.jsx:132 | With unique ids, picking an address's radio button selects exactly that address. |
| Checkout.BuildPayload | src/pages/CheckoutPage.jsx:65-76 | One order item per cart line, in order, built from the line's `_id` and quantity. The four address fields are copied. |
| Checkout.PayloadIgnoresCatalogId | src/pages/CheckoutPage.jsx:66-69 | Carts that differ only in catalog ids give the same payload, and a line without `_id` is sent without a product id. |
| Checkout.MessageOr | src/pages/CheckoutPage.jsx:97 | A non-empty server message is used as it is. A missing or empty message gives the fallback. |
| Checkout.HandlePlaceOrder | src/pages/CheckoutPage.jsx:78-101 | Each guard rejects with its alert and sends nothing. A request is sent iff an address is selected and the cart is non-empty. The cart is cleared and the page navigates only when the order was created; otherwise an alert is shown and the cart is kept. A rejected order alerts the server message or the fallback, and a response without an order alerts the fallback. This describes the handler on its own; as written, the page renders its button only for an empty cart (see `Checkout.AsWrittenNoOrderIsSent`). |
| Checkout.PlaceOrderDisabled | src/pages/CheckoutPage.jsx:177 | The button is disabled while an order is in flight. It is enabled exactly when the cart is non-empty, an address is selected and no order is in flight. |
| Checkout.ButtonMatchesGuards | src/pages/CheckoutPage.jsx:177 | When idle, the button is enabled exactly when a click would send the order. It is always disabled while an order is in flight. This holds for a page whose summary renders, as in the intended summary. |
| Checkout.FailureKeepsCart | src/pages/CheckoutPage.jsx:87-101 | Any server answer other than a created order leaves the cart exactly as it was. |
| Checkout.ContextCartTotal | src/pages/CheckoutPage.jsx:12 | Reading `cartTotal` from the cart context always yields undefined, because the context value (src/context/CartContext.js:46-52) has no member of that name. |
| Checkout.SummaryRows | src/pages/CheckoutPage.jsx:157-163 | One `CartItemRow` per cart line, in order, so each row carries that line's prices, amount and quantity. |
| Checkout.OrderSummary | src/pages/CheckoutPage.jsx:153-168 | An empty cart shows the notice. Every non-empty cart makes the render throw at `cartTotal.toFixed(2)`. Without an error boundary React then unmounts the tree, so none of the page is shown. |
| Checkout.OrderSummaryIntended | src/pages/CheckoutPage.jsx:153-168 | The render never fails. An empty cart shows the notice. Otherwise the rows are shown with the store's total, which equals the sum of the rows' line totals. |
| Checkout.SummaryRenderFails | src/pages/CheckoutPage.jsx:12-167 | For every non-empty cart the page as written fails to render, while the intended summary shows the rows and the store total. |
| Checkout.AsWrittenNoOrderIsSent | src/pages/CheckoutPage.jsx:153-177 | As written, whenever the page renders, the Place Order button is disabled and a click sends no order. |
| EmailPattern.Matches | src/components/RegisterForm.jsx:21 | True iff some substring has a non-space run, '@', a non-space run, '.', and a non-space run. |
| EmailPattern.ScanInvariant | src/components/RegisterForm.jsx:21 | After each prefix, the scan's five flags mean exactly their pattern states. |
| EmailPattern.ScanCorrect | src/components/RegisterForm.jsx:21 | The scan reports a match iff the string contains one. |
| EmailPattern.Examples | src/components/RegisterForm.jsx:21 | "a@b.c" is accepted and "ab" is refused. |
| RegisterForm.RegexIsRule | src/components/RegisterForm.jsx:25 | The anchored regular expression with three lookaheads accepts exactly the strings of at least 8 ASCII letters or digits that include a lower-case letter, an upper-case letter and a digit. |
| RegisterForm.SeenTo | src/components/RegisterForm.jsx:25 | After n characters, the scan's flags say whether all of them were alphanumeric and whether a lower-case letter, an upper-case letter and a digit occurred among them. |
| RegisterForm.PasswordMatches | src/components/RegisterForm.jsx:25 | The one-pass test agrees with both the regular expression reading and the plain rule. |
| RegisterForm.Validate | src/components/RegisterForm.jsx:14-33 | Each field has an error iff its own check fails, and each error carries that field's message. |
| RegisterForm.ErrorsDependOnOwnFields | src/components/RegisterForm.jsx:14-33 | Each error depends only on its own field, and the confirmation error on both passwords. |
| RegisterForm.HandleChange | src/components/RegisterForm.jsx:35-38 | The named field takes the value and every other field keeps its value. |
| RegisterForm.EditingLeavesOtherErrors | src/components/RegisterForm.jsx:35-38 | Editing the username or the email leaves every other field's error as it was. |
| RegisterForm.HandleSubmit | src/components/RegisterForm.jsx:40-51 | Shows the validation errors. The form is submitted iff there are none. |
| RegisterForm.SubmitSucceedsExactly | src/components/RegisterForm.jsx:40-51 | A submit succeeds iff the username has at least 3 characters, the email contains a match, the password follows the rule and the confirmation equals it. |
| RegisterForm.EmptyFormErrors | src/components/RegisterForm.jsx:4-33 | The untouched form fails on username, email and password, but not on the confirmation. |
| LoginForm.Validate | src/components/LoginForm.jsx:18-33 | A field has an error iff it is touched and empty, and the error is its "required" message. |
| LoginForm.UntouchedFieldsAreQuiet | src/components/LoginForm.jsx:18-33 | An untouched field never reports an error, whatever it holds. |
| LoginForm.HandleBlur | src/components/LoginForm.jsx:41-44 | Marks the blurred field touched and changes nothing else. |
| LoginForm.HandleChange | src/components/LoginForm.jsx:35-39 | Sets the edited field, keeps the other field and clears the submit error. |
| LoginForm.FailureMessage | src/components/LoginForm.jsx:60 | The server's error is shown unless it is missing or empty, in which case the fallback is shown. The result is never empty. |
| LoginForm.Finish | src/components/LoginForm.jsx:53-64 | The login is attempted iff there are no errors, and the page navigates home iff the attempt succeeds. A failure sets the message; otherwise the submit error is kept. |
| LoginForm.HandleSubmitAsWritten | src/components/LoginForm.jsx:46-65 | Validation sees the touched flags from before the submit. The login is attempted iff no previously touched field is empty. The form is kept, and a failed login shows the server message or the fallback. |
| LoginForm.UntouchedSubmitSendsEmptyCredentials | src/components/LoginForm.jsx:46-65 | Submitting the initial form attempts a login with an empty username and password and shows no error. |
| LoginForm.HandleSubmit | src/components/LoginForm.jsx:46-65 | Intended submit: both fields are touched and validated, and the login is attempted iff both are filled in. The form is kept, and a failed login shows the server message or the fallback, never an empty banner. |
| LoginForm.AsWrittenAgreesOnceTouched | src/components/LoginForm.jsx:46-65 | Once both fields were blurred, the submit as written and the intended submit coincide. |
| LoginForm.EditClearsFailure | src/components/LoginForm.jsx:35-60 | A failed login shows an error, and the next edit clears it. |
| StarRating.FullStars | src/components/StarRating.jsx:19 | The number of full stars is the largest integer not above the rating. |
| StarRating.EmptyStars | src/components/StarRating.jsx:21 | For a non-negative rating, the empty stars are 5 less the rating rounded to the nearest whole number, halves up. For a rating from 0 to 5 there are 0 to 5 of them. |
| StarRating.Rem1 | src/components/StarRating.jsx:20 | `x % 1` is the fractional part for x ≥ 0, and lies in (-1, 0] for negative x. |
| StarRating.HalfStar | src/components/StarRating.jsx:20 | For a non-negative rating a half star shows iff the fractional part is at least 0.5. A negative rating never gets one. |
| StarRating.Repeat | src/components/StarRating.jsx:23-33 | A loop up to n pushes max(n, 0) copies of the star. |
| StarRating.Stars | src/components/StarRating.jsx:17-35 | The row is the full stars, then at most one half star, then the empty stars. Its length is the sum of the three loop counts. |
| StarRating.FiveStarsInRange | src/components/StarRating.jsx:19-33 | Any rating from 0 to 5 renders exactly five stars. |
| StarRating.StarCounts | src/components/StarRating.jsx:19-28 | For a non-negative rating there are floor(rating) full stars, and a half star iff the fraction is at least 0.5. |
| StarRating.OutOfRangeRatings | src/components/StarRating.jsx:19-33 | 5.5 renders six stars, and -0.5 renders six stars with no full one. |
| OrderHistory.InsertAddsOne | src/components/OrderHistory.jsx:14 | One insertion step adds exactly the one order, as a multiset. |
| OrderHistory.InsertKeepsOrder | src/components/OrderHistory.jsx:14 | Inserting into a newest-first list keeps it newest first. |
| OrderHistory.InsertAt | src/components/OrderHistory.jsx:14 | An inserted order goes ahead of the orders with the same timestamp, and the orders of every other instant stay as they were. |
| OrderHistory.SortNewestFirst | src/components/OrderHistory.jsx:14 | The sort is a permutation of the orders. |
| OrderHistory.SortIsNewestFirst | src/components/OrderHistory.jsx:14 | The sorted list is ordered by creation time, newest first. |
| OrderHistory.SortIsStable | src/components/OrderHistory.jsx:14 | Orders with the same creation time keep the server's relative order. |
| OrderHistory.LoadOrders | src/components/OrderHistory.jsx:13-14 | A missing list reads as empty. Otherwise the result is a permutation of the list, newest first and stable. |
| OrderHistory.StatusBadge | src/components/OrderHistory.jsx:45-49 | Yellow iff "Processing", blue iff "Shipped", green for any other or missing status. |
| OrderHistory.ItemAmount | src/components/OrderHistory.jsx:64 | A missing or zero price or quantity gives 0; otherwise the amount is price times quantity. |
| OrderHistory.OrderTotal | src/components/OrderHistory.jsx:70 | The stored total, or 0 when it is missing. |
| OrderHistory.TotalIsNotRecomputed | src/components/OrderHistory.jsx:64-70 | An order without a stored total shows 0 even though its item amounts sum to 3. |
| OrderHistory.ViewOrder | src/components/OrderHistory.jsx:36-72 | The card shows the order's id, badge and total, plus one amount per item, or none when the items are missing. |
| OrderHistory.Render | src/components/OrderHistory.jsx:9-36 | A failed fetch shows a non-empty server message as it is, and otherwise the fallback. "No orders" shows iff the list is missing or empty. A non-empty list always shows the orders page, never the loading state. Its cards are the views of the loaded orders, one per order, in the loaded newest-first order. The card ids are the fetched ids as a multiset. |

## Left out

- Network, storage and authentication: the fetches, `localStorage` tokens, the auth context and route guards are left out. The model takes their results as parameters.
- Loading flags: the loading and "placing order" flags are left out. `PlaceOrderDisabled` covers the in-flight case as a parameter.
- Failures to load: the product grid's and product page's error texts and the checkout's "Failed to load addresses." message are left out. A failed product fetch appears only as an absent product.
- Timers: the timers that clear the "added" flags after 1000 ms and 1500 ms are left out. The model sets the flags and never clears them.
- Disabled add buttons: an add button is disabled while its "added" flag is set (src/components/ProductList.jsx:128, src/pages/ProductDetailPage.jsx:106). `ProductList.Step` and `ProductDetail.Step` apply every Add click anyway. This allows more click sequences than the page does, so the safety lemmas over `Run` still hold for the real page.
- Fetch races: the race between overlapping product fetches when the route id changes is left out. The model applies one fetch result.
- Display formatting: `toFixed(2)`, `toFixed(0)` and `toLocaleDateString()` are left out, and so are IEEE-754 floating-point rounding and its effects on totals. Prices are exact reals.
- Dates: `new Date(createdAt)` is abstracted to an integer timestamp, so unparseable dates (NaN comparisons) are not modelled.
- String lengths: they are counted in characters, not UTF-16 code units, so a username of astral-plane characters can differ in length.
- Display-only fields: image URLs, placeholder images, the item name fallback, titles, the "Registration Successful!" view text and the console log are left out.
- Other files: the other files of the repository are not part of this model. These are the navigation bar, the cart drawer, the profile page, the address modal, the order success page, the API client and the auth context.
- CartStore.AddToCart: it is not guarded by stock, because the code has no stock check.
- CartStore.Total: it sums exact line amounts and does not round to two decimals, because the code rounds only when formatting for display.
- Checkout.HandlePlaceOrder: the empty-message case keeps only the `|| fallback` rule. The server's response is abstracted to three outcomes, and a created response without an order object (`CreatedWithoutOrder`) is modelled as the catch branch with the fallback alert.
- Checkout.HandlePlaceOrder: address selection is passed in as the selected id, so the effect that sets it runs separately as `SelectionAfterLoad`.

## Findings

| source | as written | input that shows it | evidently intended | confidence | as-written member | corrected member |
|---|---|---|---|---|---|---|
| src/components/LoginForm.jsx:46-65 | `handleSubmit` calls `setTouched({username: true, password: true})` and then `validate()`. The `validate` closure still holds the old `touched`, so fields never blurred are not checked. | The initial form with both fields empty, submitted without blurring: no error, and `login("", "")` is called. | Validate with both fields touched: attempt the login iff both fields are filled in. | medium; not executed | LoginForm.UntouchedSubmitSendsEmptyCredentials | LoginForm.HandleSubmit |
| src/pages/CheckoutPage.jsx:12 | The page destructures `cartTotal` from the cart context, which provides only `getCartTotal`. `cartTotal.toFixed(2)` at line 167 then reads a property of `undefined` and throws. Wherever the page is mounted without an error boundary, the render throws and React unmounts the tree, so the Place Order button never appears for a non-empty cart. | Any non-empty cart on the checkout page. | Show `getCartTotal()`, the sum of the rows' line totals. | high; not executed | Checkout.SummaryRenderFails | Checkout.OrderSummaryIntended |
