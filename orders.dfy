/** The order history routes of the server. GET /orders lists the requesting user's
    orders, newest first, each with its order lines joined with their products;
    GET /orders/:id returns one of the user's orders with its lines, or 404. Both
    only read the store. */
module OrdersRoute {
  import opened Seqs
  import opened Tables

  /** One element of an order's `items`: the stored order line and the product's
      descriptive columns. */
  datatype ItemView = ItemView(
    id: int, productId: int, quantity: int, price: int,
    name: string, brand: string, model: string, imageUrl: string)

  /** An order as the routes answer it. */
  datatype OrderView = OrderView(
    id: int, total: int, status: string, shippingAddress: string, paymentMethod: string,
    createdAt: int, items: seq<ItemView>)

  /** `order_items oi JOIN products p ON oi.product_id = p.id` for one row. */
  function JoinItem(ps: seq<Product>, item: OrderItem): Option<ItemView>
  {
    match FindProduct(ps, item.productId)
    case None => None
    case Some(p) => Some(ItemView(item.id, item.productId, item.quantity, item.price, p.name, p.brand, p.model, p.imageUrl))
  }

  /** `… WHERE oi.order_id = ?`: the joined lines of one order, in table order. */
  function ItemViews(ps: seq<Product>, items: seq<OrderItem>, orderId: int): seq<ItemView>
  {
    if items == [] then []
    else
      (if items[0].orderId == orderId && JoinItem(ps, items[0]).Some? then [JoinItem(ps, items[0]).value] else [])
      + ItemViews(ps, items[1..], orderId)
  }

  function ViewOf(db: Db, o: Order): OrderView
  {
    OrderView(o.id, o.total, o.status, o.shippingAddress, o.paymentMethod, o.createdAt,
              ItemViews(db.products, db.orderItems, o.id))
  }

  function OwnedBy(userId: int): Order -> bool
  {
    (o: Order) => o.userId == userId
  }

  function PlacedAt(o: Order): Key
  {
    Num(o.createdAt)
  }

  /** GET /orders: `WHERE o.user_id = ? ORDER BY o.created_at DESC`, each order with its lines. */
  function ListOrders(db: Db, userId: int): seq<OrderView>
  {
    var mine := SortBy(PlacedAt, true, Filter(OwnedBy(userId), db.orders));
    seq(|mine|, k requires 0 <= k < |mine| => ViewOf(db, mine[k]))
  }

  /** GET /orders/:id: `WHERE o.id = ? AND o.user_id = ?` with `.get`, then the order's lines. */
  function GetOrder(db: Db, userId: int, orderId: int): (r: Result<OrderView>)
    ensures r.Fail? <==> forall i :: 0 <= i < |db.orders| ==> db.orders[i].id != orderId || db.orders[i].userId != userId
    ensures r.Fail? ==> r.failure == OrderNotFound
    ensures r.Ok? ==> exists i :: 0 <= i < |db.orders| && db.orders[i].id == orderId
                                  && db.orders[i].userId == userId && r.value == ViewOf(db, db.orders[i])
  {
    match FindOrder(db.orders, orderId, userId)
    case None => Fail(OrderNotFound)
    case Some(k) => Ok(ViewOf(db, db.orders[k]))
  }

  function FindOrder(orders: seq<Order>, orderId: int, userId: int): (r: Option<nat>)
    ensures r.Some? ==> r.value < |orders| && orders[r.value].id == orderId && orders[r.value].userId == userId
    ensures r.None? ==> forall i :: 0 <= i < |orders| ==> orders[i].id != orderId || orders[i].userId != userId
  {
    if orders == [] then None
    else if orders[0].id == orderId && orders[0].userId == userId then Some(0)
    else match FindOrder(orders[1..], orderId, userId)
      case None => None
      case Some(k) => Some(k + 1)
  }

  /** Every listed order is one of the user's orders, shown with its own lines. */
  lemma ListOrdersOnlyMine(db: Db, userId: int)
    ensures var list := ListOrders(db, userId);
      forall k :: 0 <= k < |list| ==>
        exists i :: 0 <= i < |db.orders| && db.orders[i].userId == userId && list[k] == ViewOf(db, db.orders[i])
  {
    var mine := Filter(OwnedBy(userId), db.orders);
    var sorted := SortBy(PlacedAt, true, mine);
    var list := ListOrders(db, userId);
    forall k | 0 <= k < |list|
      ensures exists i :: 0 <= i < |db.orders| && db.orders[i].userId == userId && list[k] == ViewOf(db, db.orders[i])
    {
      var o := sorted[k];
      assert list[k] == ViewOf(db, o);
      SortByMembers(PlacedAt, true, mine, o);
      var j :| 0 <= j < |mine| && mine[j] == o;
      assert o in db.orders && OwnedBy(userId)(o);
      var i :| 0 <= i < |db.orders| && db.orders[i] == o;
    }
  }

  /** Every order of the user is listed, and the list has one row per such order. */
  lemma ListOrdersAllMine(db: Db, userId: int)
    ensures var list := ListOrders(db, userId);
      && |list| == |Filter(OwnedBy(userId), db.orders)|
      && forall i :: 0 <= i < |db.orders| && db.orders[i].userId == userId ==>
           exists k :: 0 <= k < |list| && list[k] == ViewOf(db, db.orders[i])
  {
    var mine := Filter(OwnedBy(userId), db.orders);
    var sorted := SortBy(PlacedAt, true, mine);
    var list := ListOrders(db, userId);
    forall i | 0 <= i < |db.orders| && db.orders[i].userId == userId
      ensures exists k :: 0 <= k < |list| && list[k] == ViewOf(db, db.orders[i])
    {
      SortByMembers(PlacedAt, true, mine, db.orders[i]);
      var k :| 0 <= k < |sorted| && sorted[k] == db.orders[i];
      assert list[k] == ViewOf(db, sorted[k]);
    }
  }

  /** The list is ordered by creation time, newest first. */
  lemma ListOrdersNewestFirst(db: Db, userId: int)
    ensures var list := ListOrders(db, userId);
      forall a, b :: 0 <= a < b < |list| ==> list[a].createdAt >= list[b].createdAt
  {
    var sorted := SortBy(PlacedAt, true, Filter(OwnedBy(userId), db.orders));
    var list := ListOrders(db, userId);
    forall a, b | 0 <= a < b < |list| ensures list[a].createdAt >= list[b].createdAt {
      assert InOrder(PlacedAt, true, sorted[a], sorted[b]);
    }
  }

  /** When every order line names an existing product, an order's items are exactly its
      order lines, in table order, each carrying the line's stored id, product, quantity and
      price (not the product's current price) and the product's descriptive columns. */
  lemma {:induction false} ItemViewsAreOrderLines(ps: seq<Product>, items: seq<OrderItem>, orderId: int)
    requires forall i :: 0 <= i < |items| ==> FindProduct(ps, items[i].productId).Some?
    ensures var views := ItemViews(ps, items, orderId);
      var lines := ItemsOfOrder(items, orderId);
      && |views| == |lines|
      && forall k :: 0 <= k < |views| ==>
           var p := FindProduct(ps, lines[k].productId).value;
           views[k] == ItemView(lines[k].id, lines[k].productId, lines[k].quantity, lines[k].price,
                                p.name, p.brand, p.model, p.imageUrl)
  {
    if items != [] {
      ItemViewsAreOrderLines(ps, items[1..], orderId);
    }
  }

  /** Whatever the products table holds, an order without lines lists no items. */
  lemma {:induction false} NoLinesNoItems(ps: seq<Product>, items: seq<OrderItem>, orderId: int)
    requires ItemsOfOrder(items, orderId) == []
    ensures ItemViews(ps, items, orderId) == []
  {
    if items != [] {
      assert items[0].orderId != orderId;
      ItemsOfOrderTail(items, orderId);
      NoLinesNoItems(ps, items[1..], orderId);
    }
  }

  lemma ItemsOfOrderTail(items: seq<OrderItem>, orderId: int)
    requires items != [] && items[0].orderId != orderId
    ensures ItemsOfOrder(items, orderId) == ItemsOfOrder(items[1..], orderId)
  {
  }
}
