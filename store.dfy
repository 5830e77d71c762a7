/** The server's SQLite database as one mutable object. Its fields are the four tables
    and the ids the next inserted rows receive; the cart and checkout routes change them
    in place, step by step as the route handlers do. Each method is proved to leave the
    store exactly as the matching route function of CartRoute or CheckoutRoute says,
    and to keep the store invariant. */
module Database {
  import opened Seqs
  import opened Tables
  import opened CartRoute
  import opened CheckoutRoute

  class Store {
    var products: seq<Product>
    var cartItems: seq<CartItem>
    var orders: seq<Order>
    var orderItems: seq<OrderItem>
    var nextCartItemId: int
    var nextOrderId: int
    var nextOrderItemId: int

    /** The tables as one value. */
    function State(): Db
      reads this
    {
      Db(products, cartItems, orders, orderItems, nextCartItemId, nextOrderId, nextOrderItemId)
    }

    ghost predicate Valid()
      reads this
    {
      Tables.Valid(State())
    }

    constructor (db: Db)
      requires Tables.Valid(db)
      ensures State() == db && Valid()
    {
      products := db.products;
      cartItems := db.cartItems;
      orders := db.orders;
      orderItems := db.orderItems;
      nextCartItemId := db.nextCartItemId;
      nextOrderId := db.nextOrderId;
      nextOrderItemId := db.nextOrderItemId;
    }

    /** POST /cart: check the product and its stock, then either raise the quantity of
        the user's existing line for it or insert a new line. */
    method AddToCart(userId: int, productId: Option<int>, quantity: Option<int>, now: int) returns (r: Result<Added>)
      requires Valid()
      modifies this
      ensures (State(), r) == AddItem(old(State()), userId, productId, quantity, now)
      ensures Valid()
    {
      AddPreservesValid(State(), userId, productId, quantity, now);
      var q := if quantity.None? then 1 else quantity.value;
      if productId == None || productId == Some(0) {
        return Fail(ProductIdRequired);
      }
      var found := FindProduct(products, productId.value);
      if found.None? {
        return Fail(ProductNotFound);
      }
      var p := found.value;
      if p.stock < q {
        return Fail(InsufficientStock);
      }
      var existing := FindLine(cartItems, userId, productId.value);
      if existing.Some? {
        var merged := cartItems[existing.value].quantity + q;
        if p.stock < merged {
          return Fail(InsufficientStock);
        }
        cartItems := SetQuantity(cartItems, cartItems[existing.value].id, merged);
        r := Ok(Merged(merged));
      } else {
        cartItems := cartItems + [CartItem(nextCartItemId, userId, productId.value, q, now)];
        nextCartItemId := nextCartItemId + 1;
        r := Ok(Inserted);
      }
    }

    /** PUT /cart/:id: set the quantity of one of the user's lines, within stock. */
    method UpdateCartItem(userId: int, itemId: int, quantity: Option<int>) returns (r: Result<int>)
      requires Valid()
      modifies this
      ensures (State(), r) == UpdateItem(old(State()), userId, itemId, quantity)
      ensures Valid()
    {
      UpdatePreservesValid(State(), userId, itemId, quantity);
      if quantity == None || quantity.value < 1 {
        return Fail(InvalidQuantity);
      }
      var owned := FindOwnedLine(cartItems, itemId, userId);
      if owned.None? {
        return Fail(CartItemNotFound);
      }
      var found := FindProduct(products, cartItems[owned.value].productId);
      if found.None? {
        return Fail(Internal);
      }
      if found.value.stock < quantity.value {
        return Fail(InsufficientStock);
      }
      cartItems := SetQuantity(cartItems, itemId, quantity.value);
      r := Ok(quantity.value);
    }

    /** DELETE /cart/:id: delete the user's line with that id; 404 when none was deleted. */
    method RemoveCartItem(userId: int, itemId: int) returns (r: Result<()>)
      requires Valid()
      modifies this
      ensures (State(), r) == RemoveItem(old(State()), userId, itemId)
      ensures Valid()
    {
      RemovePreservesValid(State(), userId, itemId);
      var kept := Filter(NotLine(itemId, userId), cartItems);
      if |kept| == |cartItems| {
        return Fail(CartItemNotFound);
      }
      cartItems := kept;
      r := Ok(());
    }

    /** POST /checkout: validate the request, read the user's cart, check every line's
        stock while summing the total, then run the transaction. */
    method Checkout(userId: int, shippingAddress: string, paymentMethod: string, now: int) returns (r: Result<Placed>)
      requires Valid()
      modifies this
      ensures (State(), r) == CheckoutRoute.Checkout(old(State()), userId, shippingAddress, paymentMethod, now)
      ensures Valid()
    {
      CheckoutPreservesValid(State(), userId, shippingAddress, paymentMethod, now);
      if shippingAddress == "" || paymentMethod == "" {
        return Fail(MissingCheckoutDetails);
      }
      var lines := UserLines(products, cartItems, userId);
      if |lines| == 0 {
        return Fail(EmptyCart);
      }

      var total := 0;
      var i := 0;
      while i < |lines|
        invariant 0 <= i <= |lines|
        invariant total == SumBy(LineAmount, lines[..i])
        invariant forall j :: 0 <= j < i ==> !Short(lines[j])
        invariant unchanged(this)
      {
        if lines[i].stock < lines[i].quantity {
          assert FirstShortage(lines) == Some(i);
          return Fail(InsufficientStockFor(lines[i].productId));
        }
        SumByAppend(LineAmount, lines[..i], [lines[i]]);
        assert lines[..i + 1] == lines[..i] + [lines[i]];
        total := total + lines[i].price * lines[i].quantity;
        i := i + 1;
      }
      assert lines[..|lines|] == lines;
      assert FirstShortage(lines).None?;

      var orderId := Transact(userId, lines, total, shippingAddress, paymentMethod, now);
      r := Ok(Placed(orderId, total));
    }

    /** The transaction of POST /checkout: insert the order, then for each cart line insert
        its order line and take its quantity out of stock, then delete the user's cart. */
    method Transact(userId: int, lines: seq<CartLine>, total: int, shippingAddress: string, paymentMethod: string, now: int)
      returns (orderId: int)
      requires total == SumBy(LineAmount, lines)
      modifies this
      ensures orderId == old(nextOrderId)
      ensures State() == Place(old(State()), userId, lines, shippingAddress, paymentMethod, now)
    {
      orderId := nextOrderId;
      orders := orders + [Order(orderId, userId, total, "pending", shippingAddress, paymentMethod, now)];
      nextOrderId := nextOrderId + 1;

      var k := 0;
      while k < |lines|
        invariant 0 <= k <= |lines|
        invariant orderItems == old(orderItems) + OrderItemsFor(lines[..k], orderId, old(nextOrderItemId))
        invariant nextOrderItemId == old(nextOrderItemId) + k
        invariant products == TakeAllStock(old(products), lines[..k])
        invariant cartItems == old(cartItems) && nextCartItemId == old(nextCartItemId)
        invariant orders == old(orders) + [Order(orderId, userId, total, "pending", shippingAddress, paymentMethod, now)]
        invariant nextOrderId == orderId + 1
      {
        OrderItemsForSnoc(lines, k, orderId, old(nextOrderItemId));
        TakeAllStockSnoc(old(products), lines, k);
        orderItems := orderItems + [OrderItem(nextOrderItemId, orderId, lines[k].productId, lines[k].quantity, lines[k].price)];
        nextOrderItemId := nextOrderItemId + 1;
        products := TakeStock(products, lines[k].productId, lines[k].quantity);
        k := k + 1;
      }
      assert lines[..k] == lines;

      cartItems := ClearCart(cartItems, userId);
    }
  }

  lemma OrderItemsForSnoc(lines: seq<CartLine>, k: int, orderId: int, firstId: int)
    requires 0 <= k < |lines|
    ensures OrderItemsFor(lines[..k + 1], orderId, firstId)
         == OrderItemsFor(lines[..k], orderId, firstId)
            + [OrderItem(firstId + k, orderId, lines[k].productId, lines[k].quantity, lines[k].price)]
  {
  }

  lemma TakeAllStockSnoc(ps: seq<Product>, lines: seq<CartLine>, k: int)
    requires 0 <= k < |lines|
    ensures TakeAllStock(ps, lines[..k + 1]) == TakeStock(TakeAllStock(ps, lines[..k]), lines[k].productId, lines[k].quantity)
  {
    assert lines[..k + 1][..k] == lines[..k];
  }
}
