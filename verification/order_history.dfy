/**
 The order history list (OrderHistory.jsx): the orders the server returned,
 newest first, each with a status badge colour, one amount per item and the
 server's stored total. Dates are abstracted to their timestamps in milliseconds;
 `Array.prototype.sort` is stable, so orders placed at the same instant keep the
 server's order.
 */
module OrderHistory {
  import opened Wrappers

  /** One ordered item; every field the page reads may be missing. */
  datatype Item = Item(name: Option<string>, quantity: Option<int>, finalPrice: Option<real>)

  /** One order; `createdAt` is the timestamp `new Date(order.createdAt)` stands for. */
  datatype Order = Order(
    id: string,
    createdAt: int,
    status: Option<string>,
    items: Option<seq<Item>>,
    totalAmount: Option<real>)

  // ------------------------------------------------------------- sorting

  /** Newest first. */
  ghost predicate NewestFirst(orders: seq<Order>)
  {
    forall i, j :: 0 <= i < j < |orders| ==> orders[i].createdAt >= orders[j].createdAt
  }

  /** The orders placed at instant t, in their order. */
  function At(orders: seq<Order>, t: int): (r: seq<Order>)
    ensures |r| <= |orders|
  {
    if |orders| == 0 then []
    else (if orders[0].createdAt == t then [orders[0]] else []) + At(orders[1..], t)
  }

  /** One step of a stable insertion: `o` goes before the first order not newer than it. */
  function Insert(o: Order, sorted: seq<Order>): (r: seq<Order>)
    ensures |r| == |sorted| + 1
  {
    if |sorted| == 0 then [o]
    else if o.createdAt >= sorted[0].createdAt then [o] + sorted
    else [sorted[0]] + Insert(o, sorted[1..])
  }

  /** Insertion adds exactly the one order. */
  lemma {:induction false} InsertAddsOne(o: Order, sorted: seq<Order>)
    ensures multiset(Insert(o, sorted)) == multiset(sorted) + multiset{o}
  {
    if |sorted| > 0 && o.createdAt < sorted[0].createdAt {
      InsertAddsOne(o, sorted[1..]);
      assert sorted == [sorted[0]] + sorted[1..];
    }
  }

  /** `sort((a, b) => new Date(b.createdAt) - new Date(a.createdAt))`, a stable sort. */
  function SortNewestFirst(orders: seq<Order>): (r: seq<Order>)
    ensures multiset(r) == multiset(orders)
    ensures |r| == |orders|
  {
    if |orders| == 0 then []
    else
      assert orders == [orders[0]] + orders[1..];
      InsertAddsOne(orders[0], SortNewestFirst(orders[1..]));
      Insert(orders[0], SortNewestFirst(orders[1..]))
  }

  /** No order of the list is newer than c. */
  ghost predicate NoneNewerThan(orders: seq<Order>, c: int)
  {
    forall i :: 0 <= i < |orders| ==> orders[i].createdAt <= c
  }

  lemma {:induction false} InsertNoneNewer(o: Order, sorted: seq<Order>, c: int)
    requires NoneNewerThan(sorted, c) && o.createdAt <= c
    ensures NoneNewerThan(Insert(o, sorted), c)
  {
    if |sorted| > 0 && o.createdAt < sorted[0].createdAt {
      InsertNoneNewer(o, sorted[1..], c);
      var tail := Insert(o, sorted[1..]);
      assert Insert(o, sorted) == [sorted[0]] + tail;
    }
  }

  lemma {:induction false} InsertKeepsOrder(o: Order, sorted: seq<Order>)
    requires NewestFirst(sorted)
    ensures NewestFirst(Insert(o, sorted))
  {
    if |sorted| > 0 && o.createdAt < sorted[0].createdAt {
      var rest := sorted[1..];
      InsertKeepsOrder(o, rest);
      InsertNoneNewer(o, rest, sorted[0].createdAt);
      var tail := Insert(o, rest);
      var r := [sorted[0]] + tail;
      assert Insert(o, sorted) == r;
      forall i, j | 0 <= i < j < |r|
        ensures r[i].createdAt >= r[j].createdAt
      {
        if i == 0 {
          assert r[j] == tail[j - 1];
        } else {
          assert r[i] == tail[i - 1] && r[j] == tail[j - 1];
        }
      }
    }
  }

  /** Insertion puts `o` ahead of every order of its own instant already placed. */
  lemma {:induction false} InsertAt(o: Order, sorted: seq<Order>, t: int)
    ensures At(Insert(o, sorted), t) == if o.createdAt == t then [o] + At(sorted, t) else At(sorted, t)
  {
    var mine: seq<Order> := if o.createdAt == t then [o] else [];
    if |sorted| == 0 {
      assert At([o], t) == mine + At([], t);
    } else if o.createdAt >= sorted[0].createdAt {
      var r := [o] + sorted;
      assert r[0] == o && r[1..] == sorted;
      assert At(r, t) == mine + At(sorted, t);
    } else {
      var first := sorted[0];
      var tail := Insert(o, sorted[1..]);
      var r := [first] + tail;
      assert r[0] == first && r[1..] == tail;
      InsertAt(o, sorted[1..], t);
      var theirs: seq<Order> := if first.createdAt == t then [first] else [];
      assert At(r, t) == theirs + At(tail, t);
      assert At(sorted, t) == theirs + At(sorted[1..], t);
      assert At(tail, t) == mine + At(sorted[1..], t);
      assert o.createdAt == t ==> theirs == [];
    }
  }

  /** The sorted list is newest first. */
  lemma {:induction false} SortIsNewestFirst(orders: seq<Order>)
    ensures NewestFirst(SortNewestFirst(orders))
  {
    if |orders| > 0 {
      SortIsNewestFirst(orders[1..]);
      InsertKeepsOrder(orders[0], SortNewestFirst(orders[1..]));
    }
  }

  /** The sort is stable: the orders of any one instant appear in the server's order. */
  lemma {:induction false} SortIsStable(orders: seq<Order>, t: int)
    ensures At(SortNewestFirst(orders), t) == At(orders, t)
  {
    if |orders| > 0 {
      SortIsStable(orders[1..], t);
      InsertAt(orders[0], SortNewestFirst(orders[1..]), t);
    }
  }

  // ------------------------------------------------------------ the page

  /** `response.data?.data?.orders || []`, then sorted. */
  function LoadOrders(response: Option<seq<Order>>): (r: seq<Order>)
    ensures response.None? ==> r == []
    ensures response.Some? ==> multiset(r) == multiset(response.value) && NewestFirst(r)
    ensures response.Some? ==> forall t :: At(r, t) == At(response.value, t)
  {
    var orders := response.GetOr([]);
    SortIsNewestFirst(orders);
    forall t ensures At(SortNewestFirst(orders), t) == At(orders, t) {
      SortIsStable(orders, t);
    }
    SortNewestFirst(orders)
  }

  const FetchFailedMessage: string := "Failed to fetch orders."
  const NoOrdersMessage: string := "You have no orders yet."

  datatype Badge = Yellow | Blue | Green

  /** The badge colour: yellow while processing, blue once shipped, green for any other status. */
  function StatusBadge(status: Option<string>): (b: Badge)
    ensures b == Yellow <==> status == Some("Processing")
    ensures b == Blue <==> status == Some("Shipped")
    ensures b == Green <==> status != Some("Processing") && status != Some("Shipped")
  {
    if status == Some("Processing") then Yellow
    else if status == Some("Shipped") then Blue
    else Green
  }

  /** `(item.finalPrice || 0) * (item.quantity || 0)`: a missing or zero field counts as zero. */
  function ItemAmount(item: Item): (r: real)
    ensures item.finalPrice.None? || item.quantity.None? ==> r == 0.0
    ensures item.finalPrice == Some(0.0) || item.quantity == Some(0) ==> r == 0.0
    ensures item.finalPrice.Some? && item.quantity.Some? ==> r == item.finalPrice.value * item.quantity.value as real
  {
    item.finalPrice.GetOr(0.0) * item.quantity.GetOr(0) as real
  }

  /** `order.totalAmount || 0`: the stored total, never recomputed from the items. */
  function OrderTotal(order: Order): (r: real)
    ensures order.totalAmount.None? ==> r == 0.0
    ensures order.totalAmount.Some? ==> r == order.totalAmount.value
  {
    order.totalAmount.GetOr(0.0)
  }

  function SumAmounts(items: seq<Item>): real
  {
    if |items| == 0 then 0.0 else ItemAmount(items[0]) + SumAmounts(items[1..])
  }

  /** The total shown need not equal the sum of the item amounts shown: an order
      without a stored total shows 0 even when its items cost something. */
  lemma TotalIsNotRecomputed()
    ensures var o := Order("o1", 0, Some("Processing"), Some([Item(Some("Pen"), Some(2), Some(1.5))]), None);
      OrderTotal(o) == 0.0 && SumAmounts(o.items.value) == 3.0
  {
  }

  /** One order's card. */
  datatype OrderView = OrderView(id: string, badge: Badge, amounts: seq<real>, total: real)

  function ViewOrder(order: Order): (v: OrderView)
    ensures v.id == order.id && v.badge == StatusBadge(order.status) && v.total == OrderTotal(order)
    ensures order.items.None? ==> v.amounts == []
    ensures order.items.Some? ==>
      |v.amounts| == |order.items.value| && forall i :: 0 <= i < |v.amounts| ==> v.amounts[i] == ItemAmount(order.items.value[i])
  {
    var items := order.items.GetOr([]);
    OrderView(order.id, StatusBadge(order.status), seq(|items|, i requires 0 <= i < |items| => ItemAmount(items[i])), OrderTotal(order))
  }

  /** What the page shows. `Loading` is the state before the fetch settles; `Render`
      describes only the settled page, so it never yields `Loading`. */
  datatype Page = Loading | Failed(message: string) | NoOrders | Orders(views: seq<OrderView>)

  /** The outcome of `api.get('/api/orders')`: the `orders` field (possibly missing),
      or an error with an optional server message. */
  datatype FetchResult = Fetched(orders: Option<seq<Order>>) | FetchFailed(message: Option<string>)

  /** The page once the fetch has settled. */
  function Render(result: FetchResult): (p: Page)
    ensures result.FetchFailed? ==> p.Failed?
    ensures !p.Loading?
    ensures result.FetchFailed? && (result.message.None? || result.message == Some("")) ==> p == Failed(FetchFailedMessage)
    ensures result.FetchFailed? && result.message.Some? && result.message.value != "" ==> p == Failed(result.message.value)
    ensures result.Fetched? ==> (p == NoOrders <==> result.orders.None? || |result.orders.value| == 0)
    ensures result.Fetched? && result.orders.Some? && |result.orders.value| > 0 ==> p.Orders?
    ensures p.Orders? ==> result.Fetched? && result.orders.Some?
    ensures p.Orders? ==> multiset(ViewIds(p.views)) == multiset(Ids(result.orders.value))
    ensures p.Orders? ==> |p.views| == |LoadOrders(result.orders)|
    ensures p.Orders? ==> forall i :: 0 <= i < |p.views| ==> p.views[i] == ViewOrder(LoadOrders(result.orders)[i])
  {
    match result
    case FetchFailed(message) =>
      Failed(if message.Some? && message.value != "" then message.value else FetchFailedMessage)
    case Fetched(response) =>
      var orders := LoadOrders(response);
      if |orders| == 0 then NoOrders
      else
        var views := seq(|orders|, i requires 0 <= i < |orders| => ViewOrder(orders[i]));
        SortIds(response.value);
        assert ViewIds(views) == Ids(orders);
        Orders(views)
  }

  function ViewIds(views: seq<OrderView>): seq<string>
  {
    seq(|views|, i requires 0 <= i < |views| => views[i].id)
  }

  function Ids(orders: seq<Order>): seq<string>
  {
    seq(|orders|, i requires 0 <= i < |orders| => orders[i].id)
  }

  /** Inserting an order adds its id to the ids. */
  lemma {:induction false} InsertIds(o: Order, sorted: seq<Order>)
    ensures multiset(Ids(Insert(o, sorted))) == multiset(Ids(sorted)) + multiset{o.id}
  {
    if |sorted| == 0 {
      assert Ids([o]) == [o.id];
    } else if o.createdAt >= sorted[0].createdAt {
      IdsSplit([o], sorted);
      assert Ids([o]) == [o.id];
    } else {
      var first := [sorted[0]];
      InsertIds(o, sorted[1..]);
      IdsSplit(first, Insert(o, sorted[1..]));
      IdsSplit(first, sorted[1..]);
      assert first + sorted[1..] == sorted;
    }
  }

  /** Sorting keeps the ids, as a multiset. */
  lemma {:induction false} SortIds(orders: seq<Order>)
    ensures multiset(Ids(SortNewestFirst(orders))) == multiset(Ids(orders))
  {
    if |orders| > 0 {
      var first := orders[0];
      var rest := SortNewestFirst(orders[1..]);
      assert SortNewestFirst(orders) == Insert(first, rest);
      SortIds(orders[1..]);
      InsertIds(first, rest);
      IdsCons(orders);
    }
  }

  lemma IdsCons(orders: seq<Order>)
    requires |orders| > 0
    ensures multiset(Ids(orders)) == multiset{orders[0].id} + multiset(Ids(orders[1..]))
  {
    assert Ids(orders) == [orders[0].id] + Ids(orders[1..]);
  }

  lemma IdsSplit(p: seq<Order>, q: seq<Order>)
    ensures Ids(p + q) == Ids(p) + Ids(q)
  {
  }
}
