/** The checkout route of the server (POST /api/checkout): validate the request and
    the user's cart against live stock, total it, then record one order and one
    order line per cart line at the price read now, take the quantities out of
    stock and empty the user's cart. `Checkout` states the whole step as a function
    of the store; Database.Store.Checkout carries it out with the route's loops. */
module CheckoutRoute {
  import opened Text
  import opened Seqs
  import opened Tables
  import opened CartRoute

  /** The success body: 201 with the new order's id and total. */
  datatype Placed = Placed(orderId: int, total: int)

  function Short(line: CartLine): bool
  {
    line.stock < line.quantity
  }

  /** The position of the first line whose product has less stock than the line asks for. */
  function FirstShortage(lines: seq<CartLine>): (r: Option<nat>)
    ensures r.Some? ==> r.value < |lines| && Short(lines[r.value])
    ensures r.Some? ==> forall j :: 0 <= j < r.value ==> !Short(lines[j])
    ensures r.None? ==> forall j :: 0 <= j < |lines| ==> !Short(lines[j])
  {
    if lines == [] then None
    else if Short(lines[0]) then Some(0)
    else match FirstShortage(lines[1..])
      case None => None
      case Some(k) => Some(k + 1)
  }

  /** The `order_items` rows the insertion loop writes, ids counting up from `firstId`. */
  function OrderItemsFor(lines: seq<CartLine>, orderId: int, firstId: int): (r: seq<OrderItem>)
    ensures |r| == |lines|
  {
    seq(|lines|, i requires 0 <= i < |lines| =>
      OrderItem(firstId + i, orderId, lines[i].productId, lines[i].quantity, lines[i].price))
  }

  /** `UPDATE products SET stock = stock - ? WHERE id = ?`. */
  function TakeStock(ps: seq<Product>, productId: int, quantity: int): (r: seq<Product>)
    ensures |r| == |ps|
  {
    seq(|ps|, i requires 0 <= i < |ps| =>
      if ps[i].id == productId then ps[i].(stock := ps[i].stock - quantity) else ps[i])
  }

  /** The stock updates of the insertion loop, one per line, in line order. */
  function TakeAllStock(ps: seq<Product>, lines: seq<CartLine>): (r: seq<Product>)
    ensures |r| == |ps|
  {
    if lines == [] then ps
    else
      var last := lines[|lines| - 1];
      TakeStock(TakeAllStock(ps, lines[..|lines| - 1]), last.productId, last.quantity)
  }

  /** The total quantity of product `productId` over the lines. */
  function QuantityOf(lines: seq<CartLine>, productId: int): int
  {
    if lines == [] then 0
    else
      var last := lines[|lines| - 1];
      QuantityOf(lines[..|lines| - 1], productId) + (if last.productId == productId then last.quantity else 0)
  }

  function OtherUsers(userId: int): CartItem -> bool
  {
    (c: CartItem) => c.userId != userId
  }

  /** `DELETE FROM cart_items WHERE user_id = ?`. */
  function ClearCart(items: seq<CartItem>, userId: int): seq<CartItem>
  {
    Filter(OtherUsers(userId), items)
  }

  /** The store after the transaction: stock taken, order and order lines recorded,
      the user's cart emptied. */
  function Place(db: Db, userId: int, lines: seq<CartLine>, shippingAddress: string, paymentMethod: string, now: int)
    : Db
  {
    var orderId := db.nextOrderId;
    Db(TakeAllStock(db.products, lines),
       ClearCart(db.cartItems, userId),
       db.orders + [Order(orderId, userId, SumBy(LineAmount, lines), "pending", shippingAddress, paymentMethod, now)],
       db.orderItems + OrderItemsFor(lines, orderId, db.nextOrderItemId),
       db.nextCartItemId, orderId + 1, db.nextOrderItemId + |lines|)
  }

  /** POST /checkout with body `{ shipping_address, payment_method }`. An absent field is "". */
  function Checkout(db: Db, userId: int, shippingAddress: string, paymentMethod: string, now: int)
    : (r: (Db, Result<Placed>))
    ensures r.1.Fail? ==> r.0 == db
    ensures r.1 == Fail(MissingCheckoutDetails) <==> shippingAddress == "" || paymentMethod == ""
    ensures r.1 == Fail(EmptyCart) <==>
      shippingAddress != "" && paymentMethod != "" && UserLines(db.products, db.cartItems, userId) == []
  {
    if shippingAddress == "" || paymentMethod == "" then (db, Fail(MissingCheckoutDetails))
    else
      var lines := UserLines(db.products, db.cartItems, userId);
      if lines == [] then (db, Fail(EmptyCart))
      else match FirstShortage(lines)
        case Some(k) => (db, Fail(InsufficientStockFor(lines[k].productId)))
        case None =>
          (Place(db, userId, lines, shippingAddress, paymentMethod, now),
           Ok(Placed(db.nextOrderId, SumBy(LineAmount, lines))))
  }

  /** The shape of a successful checkout. */
  lemma CheckoutOk(db: Db, userId: int, shippingAddress: string, paymentMethod: string, now: int)
    requires Checkout(db, userId, shippingAddress, paymentMethod, now).1.Ok?
    ensures var lines := UserLines(db.products, db.cartItems, userId);
      && lines != [] && FirstShortage(lines).None?
      && Checkout(db, userId, shippingAddress, paymentMethod, now)
         == (Place(db, userId, lines, shippingAddress, paymentMethod, now),
             Ok(Placed(db.nextOrderId, SumBy(LineAmount, lines))))
  {
  }

  /** "Cart is empty" exactly when the details are present and the user has no cart row
      whose product row exists. */
  lemma EmptyCartIffNoRows(db: Db, userId: int, shippingAddress: string, paymentMethod: string, now: int)
    ensures Checkout(db, userId, shippingAddress, paymentMethod, now).1 == Fail(EmptyCart) <==>
      && shippingAddress != "" && paymentMethod != ""
      && forall i :: 0 <= i < |db.cartItems| ==>
           db.cartItems[i].userId != userId || FindProduct(db.products, db.cartItems[i].productId).None?
  {
    var lines := UserLines(db.products, db.cartItems, userId);
    if lines != [] {
      UserLinesOrigin(db.products, db.cartItems, userId, 0);
    }
    forall i | 0 <= i < |db.cartItems| && db.cartItems[i].userId == userId
                 && FindProduct(db.products, db.cartItems[i].productId).Some?
      ensures lines != []
    {
      UserLinesComplete(db.products, db.cartItems, userId, i);
    }
  }

  /** Every checkout failure is a 400 whose message names the missing details, the empty
      cart, or the decimal id of a cart product whose stock is short. */
  lemma CheckoutFailureResponses(db: Db, userId: int, shippingAddress: string, paymentMethod: string, now: int)
    ensures var r := Checkout(db, userId, shippingAddress, paymentMethod, now).1;
      r.Fail? ==>
        && r.failure.Status() == 400
        && (|| r.failure.Message() == "Shipping address and payment method are required"
            || r.failure.Message() == "Cart is empty"
            || exists line :: line in UserLines(db.products, db.cartItems, userId)
                 && line.stock < line.quantity
                 && r.failure.Message() == "Insufficient stock for product ID " + IntToString(line.productId))
  {
    var lines := UserLines(db.products, db.cartItems, userId);
    var r := Checkout(db, userId, shippingAddress, paymentMethod, now).1;
    if shippingAddress != "" && paymentMethod != "" && lines != [] && FirstShortage(lines).Some? {
      var line := lines[FirstShortage(lines).value];
      assert r.failure.Message() == "Insufficient stock for product ID " + IntToString(line.productId);
    }
  }

  /** With the details present and a non-empty cart, checkout fails exactly when some
      line's stock is below its quantity, and then names the first such line's product. */
  lemma CheckoutRejectsShortStock(db: Db, userId: int, shippingAddress: string, paymentMethod: string, now: int)
    requires shippingAddress != "" && paymentMethod != ""
    requires UserLines(db.products, db.cartItems, userId) != []
    ensures var lines := UserLines(db.products, db.cartItems, userId);
      var r := Checkout(db, userId, shippingAddress, paymentMethod, now);
      && (r.1.Fail? <==> exists j :: 0 <= j < |lines| && lines[j].stock < lines[j].quantity)
      && (r.1.Fail? ==> exists k :: 0 <= k < |lines| && r.1 == Fail(InsufficientStockFor(lines[k].productId))
                          && lines[k].stock < lines[k].quantity
                          && forall j :: 0 <= j < k ==> lines[j].stock >= lines[j].quantity)
  {
    var lines := UserLines(db.products, db.cartItems, userId);
    if FirstShortage(lines).None? {
      assert forall j :: 0 <= j < |lines| ==> !Short(lines[j]);
    }
  }

  lemma {:induction false} OrderItemsSum(lines: seq<CartLine>, orderId: int, firstId: int)
    ensures SumBy(Amount, OrderItemsFor(lines, orderId, firstId)) == SumBy(LineAmount, lines)
  {
    if lines != [] {
      OrderItemsSum(lines[1..], orderId, firstId + 1);
      assert OrderItemsFor(lines, orderId, firstId)[1..] == OrderItemsFor(lines[1..], orderId, firstId + 1);
    }
  }

  /** The order lines the transaction files under the new order are exactly one per cart
      line, and their amounts add up to the order's total. */
  lemma PlaceOrderItems(db: Db, userId: int, lines: seq<CartLine>, shippingAddress: string, paymentMethod: string, now: int)
    requires OrderIdsFresh(db)
    ensures var d := Place(db, userId, lines, shippingAddress, paymentMethod, now);
      && ItemsOfOrder(d.orderItems, db.nextOrderId) == OrderItemsFor(lines, db.nextOrderId, db.nextOrderItemId)
      && SumBy(LineAmount, lines) == SumBy(Amount, ItemsOfOrder(d.orderItems, db.nextOrderId))
  {
    var orderId := db.nextOrderId;
    var added := OrderItemsFor(lines, orderId, db.nextOrderItemId);
    FilterAppend(OfOrder(orderId), db.orderItems, added);
    FilterNone(OfOrder(orderId), db.orderItems);
    FilterAll(OfOrder(orderId), added);
    OrderItemsSum(lines, orderId, db.nextOrderItemId);
  }

  /** A successful checkout records one order with status "pending" and the next order id,
      whose total is both the cart page's total and the sum of price × quantity over the
      order's lines; the order's lines are exactly one per cart line, carrying that line's
      product and quantity and the price read at checkout, and each line had enough stock. */
  lemma CheckoutRecordsOrder(db: Db, userId: int, shippingAddress: string, paymentMethod: string, now: int)
    requires OrderIdsFresh(db)
    requires Checkout(db, userId, shippingAddress, paymentMethod, now).1.Ok?
    ensures var lines := UserLines(db.products, db.cartItems, userId);
      var r := Checkout(db, userId, shippingAddress, paymentMethod, now);
      var orderId := r.1.value.orderId;
      && orderId == db.nextOrderId
      && r.1.value.total == GetCart(db, userId).total
      && r.0.orders == db.orders + [Order(orderId, userId, r.1.value.total, "pending", shippingAddress, paymentMethod, now)]
      && |ItemsOfOrder(r.0.orderItems, orderId)| == |lines|
      && (forall i :: 0 <= i < |lines| ==>
            var item := ItemsOfOrder(r.0.orderItems, orderId)[i];
            item.productId == lines[i].productId && item.quantity == lines[i].quantity
            && item.price == lines[i].price && lines[i].quantity <= lines[i].stock)
      && r.1.value.total == SumBy(Amount, ItemsOfOrder(r.0.orderItems, orderId))
  {
    var lines := UserLines(db.products, db.cartItems, userId);
    CheckoutOk(db, userId, shippingAddress, paymentMethod, now);
    PlaceOrderItems(db, userId, lines, shippingAddress, paymentMethod, now);
    SortBySum(Newest, true, LineAmount, lines);
  }

  lemma {:induction false} TakeAllStockEffect(ps: seq<Product>, lines: seq<CartLine>)
    ensures forall i :: 0 <= i < |ps| ==>
      TakeAllStock(ps, lines)[i] == ps[i].(stock := ps[i].stock - QuantityOf(lines, ps[i].id))
  {
    if lines != [] {
      TakeAllStockEffect(ps, lines[..|lines| - 1]);
    }
  }

  /** No two lines name the same product. */
  ghost predicate DistinctProducts(lines: seq<CartLine>)
  {
    forall a, b :: 0 <= a < b < |lines| ==> lines[a].productId != lines[b].productId
  }

  /** When no two lines name the same product, a product's quantity is its one line's. */
  lemma {:induction false} QuantityOfDistinct(lines: seq<CartLine>, productId: int)
    requires DistinctProducts(lines)
    ensures forall k :: 0 <= k < |lines| && lines[k].productId == productId ==>
      QuantityOf(lines, productId) == lines[k].quantity
    ensures (forall k :: 0 <= k < |lines| ==> lines[k].productId != productId) ==>
      QuantityOf(lines, productId) == 0
  {
    if lines != [] {
      var init := lines[..|lines| - 1];
      QuantityOfDistinct(init, productId);
      assert forall k :: 0 <= k < |init| ==> init[k] == lines[k];
    }
  }

  /** Under one cart line per (user, product), the user's joined lines name distinct products. */
  lemma {:induction false} UserLinesDistinct(ps: seq<Product>, items: seq<CartItem>, userId: int)
    requires OneLinePerProduct(items)
    ensures DistinctProducts(UserLines(ps, items, userId))
  {
    if items != [] {
      var tail := items[1..];
      assert OneLinePerProduct(tail) by {
        forall i, j | 0 <= i < j < |tail| ensures tail[i].userId != tail[j].userId || tail[i].productId != tail[j].productId {
          assert tail[i] == items[i + 1] && tail[j] == items[j + 1];
        }
      }
      UserLinesDistinct(ps, tail, userId);
      if items[0].userId == userId && Joined(ps, items[0]).Some? {
        assert forall i :: 0 <= i < |tail| && tail[i].userId == userId ==> tail[i].productId != items[0].productId by {
          forall i | 0 <= i < |tail| && tail[i].userId == userId ensures tail[i].productId != items[0].productId {
            assert tail[i] == items[i + 1];
          }
        }
        UserLinesAvoid(ps, tail, userId, items[0].productId);
        var rest := UserLines(ps, tail, userId);
        var lines := UserLines(ps, items, userId);
        assert lines == [Joined(ps, items[0]).value] + rest;
        assert lines[0].productId == items[0].productId;
        forall a, b | 0 <= a < b < |lines| ensures lines[a].productId != lines[b].productId {
          assert lines[b] == rest[b - 1];
          assert rest[b - 1].productId != items[0].productId;
          if a > 0 {
            assert lines[a] == rest[a - 1];
            assert rest[a - 1].productId != rest[b - 1].productId;
          }
        }
      } else {
        assert UserLines(ps, items, userId) == UserLines(ps, tail, userId);
      }
    }
  }

  /** A joined line carries the stock of the product row it names. */
  lemma LineStock(ps: seq<Product>, items: seq<CartItem>, userId: int, k: int, i: int)
    requires ProductIdsUnique(ps)
    requires 0 <= k < |UserLines(ps, items, userId)| && 0 <= i < |ps|
    requires UserLines(ps, items, userId)[k].productId == ps[i].id
    ensures UserLines(ps, items, userId)[k].stock == ps[i].stock
  {
    var line := UserLines(ps, items, userId)[k];
    UserLinesOrigin(ps, items, userId, k);
    var j :| 0 <= j < |items| && items[j].userId == userId && Joined(ps, items[j]) == Some(line);
    FindProductAt(ps, i);
  }

  /** Given one cart line per (user, product), a successful checkout lowers each purchased
      product's stock by exactly its cart quantity and leaves every other product as it
      was, so stock that was never negative stays non-negative. */
  lemma CheckoutTakesStock(db: Db, userId: int, shippingAddress: string, paymentMethod: string, now: int)
    requires ProductIdsUnique(db.products) && StockNonNegative(db.products) && OneLinePerProduct(db.cartItems)
    requires Checkout(db, userId, shippingAddress, paymentMethod, now).1.Ok?
    ensures var lines := UserLines(db.products, db.cartItems, userId);
      var ps := Checkout(db, userId, shippingAddress, paymentMethod, now).0.products;
      && |ps| == |db.products|
      && (forall i, k :: 0 <= i < |ps| && 0 <= k < |lines| && lines[k].productId == db.products[i].id ==>
            ps[i] == db.products[i].(stock := db.products[i].stock - lines[k].quantity))
      && (forall i :: 0 <= i < |ps| && (forall k :: 0 <= k < |lines| ==> lines[k].productId != db.products[i].id) ==>
            ps[i] == db.products[i])
      && StockNonNegative(ps)
  {
    var lines := UserLines(db.products, db.cartItems, userId);
    var ps := TakeAllStock(db.products, lines);
    CheckoutOk(db, userId, shippingAddress, paymentMethod, now);
    TakeAllStockEffect(db.products, lines);
    UserLinesDistinct(db.products, db.cartItems, userId);
    forall i | 0 <= i < |ps| ensures ps[i].stock >= 0 {
      QuantityOfDistinct(lines, db.products[i].id);
      if k :| 0 <= k < |lines| && lines[k].productId == db.products[i].id {
        LineStock(db.products, db.cartItems, userId, k, i);
        assert !Short(lines[k]);
      }
    }
    forall i | 0 <= i < |ps| {
      QuantityOfDistinct(lines, db.products[i].id);
    }
  }

  /** A successful checkout empties the user's cart and keeps every other user's lines,
      in order. */
  lemma CheckoutEmptiesCart(db: Db, userId: int, shippingAddress: string, paymentMethod: string, now: int)
    requires Checkout(db, userId, shippingAddress, paymentMethod, now).1.Ok?
    ensures var items := Checkout(db, userId, shippingAddress, paymentMethod, now).0.cartItems;
      && (forall i :: 0 <= i < |items| ==> items[i].userId != userId)
      && (forall i :: 0 <= i < |db.cartItems| && db.cartItems[i].userId != userId ==> db.cartItems[i] in items)
      && SubsequenceOf(items, db.cartItems)
  {
    FilterSubsequence(OtherUsers(userId), db.cartItems);
  }

  /** The transaction keeps order and order-line ids fresh and unique. */
  lemma PlaceKeepsOrderIds(db: Db, userId: int, lines: seq<CartLine>, shippingAddress: string, paymentMethod: string, now: int)
    requires OrderIdsFresh(db)
    ensures OrderIdsFresh(Place(db, userId, lines, shippingAddress, paymentMethod, now))
  {
    var d := Place(db, userId, lines, shippingAddress, paymentMethod, now);
    var added := OrderItemsFor(lines, db.nextOrderId, db.nextOrderItemId);
    assert forall i :: 0 <= i < |d.orderItems| ==>
      d.orderItems[i] == if i < |db.orderItems| then db.orderItems[i] else added[i - |db.orderItems|];
  }

  /** An order recorded earlier keeps exactly the lines it had. */
  lemma {:induction false} OlderOrderItems(items: seq<OrderItem>, lines: seq<CartLine>, orderId: int, firstId: int, older: int)
    requires older != orderId
    ensures ItemsOfOrder(items + OrderItemsFor(lines, orderId, firstId), older) == ItemsOfOrder(items, older)
  {
    var added := OrderItemsFor(lines, orderId, firstId);
    FilterAppend(OfOrder(older), items, added);
    forall x | x in added ensures !OfOrder(older)(x) {
      var k :| 0 <= k < |added| && added[k] == x;
    }
    FilterNone(OfOrder(older), added);
  }

  /** The transaction keeps every order's total equal to the sum over its lines. */
  lemma PlaceKeepsTotals(db: Db, userId: int, lines: seq<CartLine>, shippingAddress: string, paymentMethod: string, now: int)
    requires OrderIdsFresh(db) && OrderTotalsMatch(db)
    ensures OrderTotalsMatch(Place(db, userId, lines, shippingAddress, paymentMethod, now))
  {
    var d := Place(db, userId, lines, shippingAddress, paymentMethod, now);
    PlaceOrderItems(db, userId, lines, shippingAddress, paymentMethod, now);
    forall i | 0 <= i < |d.orders|
      ensures d.orders[i].total == SumBy(Amount, ItemsOfOrder(d.orderItems, d.orders[i].id))
    {
      if i < |db.orders| {
        assert d.orders[i] == db.orders[i];
        OlderOrderItems(db.orderItems, lines, db.nextOrderId, db.nextOrderItemId, db.orders[i].id);
      }
    }
  }

  /** Checkout keeps the store invariant: in particular every order's total still equals
      the sum over its lines, and stock stays non-negative. */
  lemma CheckoutPreservesValid(db: Db, userId: int, shippingAddress: string, paymentMethod: string, now: int)
    requires Valid(db)
    ensures Valid(Checkout(db, userId, shippingAddress, paymentMethod, now).0)
  {
    if Checkout(db, userId, shippingAddress, paymentMethod, now).1.Ok? {
      var lines := UserLines(db.products, db.cartItems, userId);
      var d := Place(db, userId, lines, shippingAddress, paymentMethod, now);
      CheckoutOk(db, userId, shippingAddress, paymentMethod, now);
      CheckoutTakesStock(db, userId, shippingAddress, paymentMethod, now);
      TakeAllStockEffect(db.products, lines);
      assert ProductIdsUnique(d.products);
      FilterKeepsCartKeys(OtherUsers(userId), db.cartItems, db.nextCartItemId);
      PlaceKeepsOrderIds(db, userId, lines, shippingAddress, paymentMethod, now);
      PlaceKeepsTotals(db, userId, lines, shippingAddress, paymentMethod, now);
    }
  }

  /** Without one line per (user, product) the per-line check is not enough: two lines of
      one unit each against a stock of one both pass, and the stock ends at -1. */
  lemma DuplicateLinesOversell()
    ensures var p := Product(7, "Phone", "Brand", "Model", 100, "128GB", "Black", "", "", 1, 0);
      var db := Db([p], [CartItem(1, 5, 7, 1, 0), CartItem(2, 5, 7, 1, 0)], [], [], 3, 1, 1);
      var r := Checkout(db, 5, "Street 1", "cash_on_delivery", 0);
      r.1 == Ok(Placed(1, 200)) && r.0.products[0].stock == -1
  {
    var p := Product(7, "Phone", "Brand", "Model", 100, "128GB", "Black", "", "", 1, 0);
    var db := Db([p], [CartItem(1, 5, 7, 1, 0), CartItem(2, 5, 7, 1, 0)], [], [], 3, 1, 1);
    var line := CartLine(1, 1, 0, 7, "Phone", "Brand", "Model", 100, "128GB", "Black", "", 1);
    var line2 := line.(id := 2);
    assert UserLines([p], db.cartItems[2..], 5) == [];
    assert UserLines([p], db.cartItems[1..], 5) == [line2];
    assert UserLines([p], db.cartItems, 5) == [line, line2];
    assert TakeAllStock([p], [line]) == [p.(stock := 0)];
  }
}
