/** The server's store: the rows of its four tables (products, cart_items, orders,
    order_items), the error responses the routes send, and the invariants the
    routes keep. Every table is a sequence of rows in rowid order, and a query
    without ORDER BY is modelled as returning its rows in that order; SQLite itself
    leaves that order unspecified. */
module Tables {
  import opened Text
  import opened Seqs

  datatype Option<T> = None | Some(value: T)

  datatype Result<T> = Ok(value: T) | Fail(failure: Failure)

  /** The error responses of the cart, checkout, product and order routes. */
  datatype Failure =
    | MissingCheckoutDetails
    | EmptyCart
    | InsufficientStockFor(productId: int)
    | ProductIdRequired
    | ProductNotFound
    | InsufficientStock
    | InvalidQuantity
    | CartItemNotFound
    | OrderNotFound
    | Internal
  {
    /** The HTTP status the route answers with. */
    function Status(): int
    {
      match this
      case ProductNotFound | CartItemNotFound | OrderNotFound => 404
      case Internal => 500
      case _ => 400
    }

    /** The `error` field of the JSON body. */
    function Message(): string
    {
      match this
      case MissingCheckoutDetails => "Shipping address and payment method are required"
      case EmptyCart => "Cart is empty"
      case InsufficientStockFor(id) => "Insufficient stock for product ID " + IntToString(id)
      case ProductIdRequired => "Product ID is required"
      case ProductNotFound => "Product not found"
      case InsufficientStock => "Insufficient stock"
      case InvalidQuantity => "Valid quantity is required"
      case CartItemNotFound => "Cart item not found"
      case OrderNotFound => "Order not found"
      case Internal => "Internal server error"
    }
  }

  /** A row of `products`; prices are whole currency units. */
  datatype Product = Product(
    id: int, name: string, brand: string, model: string, price: int, storage: string,
    color: string, imageUrl: string, description: string, stock: int, createdAt: int)

  /** A row of `cart_items`. */
  datatype CartItem = CartItem(id: int, userId: int, productId: int, quantity: int, createdAt: int)

  /** A row of `orders`. */
  datatype Order = Order(
    id: int, userId: int, total: int, status: string, shippingAddress: string,
    paymentMethod: string, createdAt: int)

  /** A row of `order_items`: `price` is the unit price captured at checkout. */
  datatype OrderItem = OrderItem(id: int, orderId: int, productId: int, quantity: int, price: int)

  /** The whole store; the `next…` fields are the ids the next inserted rows receive. */
  datatype Db = Db(
    products: seq<Product>, cartItems: seq<CartItem>, orders: seq<Order>, orderItems: seq<OrderItem>,
    nextCartItemId: int, nextOrderId: int, nextOrderItemId: int)

  /** `SELECT * FROM products WHERE id = ?` with `.get`: the first row with that id. */
  function FindProduct(ps: seq<Product>, id: int): (r: Option<Product>)
    ensures r.Some? ==> r.value in ps && r.value.id == id
    ensures r.None? <==> forall i :: 0 <= i < |ps| ==> ps[i].id != id
  {
    if ps == [] then None
    else if ps[0].id == id then Some(ps[0])
    else FindProduct(ps[1..], id)
  }

  /** Under a primary key, looking a product up by id finds its one row. */
  lemma {:induction false} FindProductAt(ps: seq<Product>, i: int)
    requires ProductIdsUnique(ps) && 0 <= i < |ps|
    ensures FindProduct(ps, ps[i].id) == Some(ps[i])
  {
    if i > 0 {
      FindProductAt(ps[1..], i - 1);
    }
  }

  function Amount(item: OrderItem): int
  {
    item.price * item.quantity
  }

  function OfOrder(orderId: int): OrderItem -> bool
  {
    (item: OrderItem) => item.orderId == orderId
  }

  /** The rows of `order_items` that belong to order `orderId`, in table order. */
  function ItemsOfOrder(items: seq<OrderItem>, orderId: int): seq<OrderItem>
  {
    Filter(OfOrder(orderId), items)
  }

  ghost predicate ProductIdsUnique(ps: seq<Product>)
  {
    forall i, j :: 0 <= i < j < |ps| ==> ps[i].id != ps[j].id
  }

  ghost predicate StockNonNegative(ps: seq<Product>)
  {
    forall i :: 0 <= i < |ps| ==> ps[i].stock >= 0
  }

  ghost predicate CartIdsFresh(items: seq<CartItem>, next: int)
  {
    && (forall i :: 0 <= i < |items| ==> items[i].id < next)
    && (forall i, j :: 0 <= i < j < |items| ==> items[i].id != items[j].id)
  }

  /** At most one cart line per (user, product). */
  ghost predicate OneLinePerProduct(items: seq<CartItem>)
  {
    forall i, j :: 0 <= i < j < |items| ==>
      items[i].userId != items[j].userId || items[i].productId != items[j].productId
  }

  ghost predicate OrderIdsFresh(db: Db)
  {
    && (forall i :: 0 <= i < |db.orders| ==> db.orders[i].id < db.nextOrderId)
    && (forall i, j :: 0 <= i < j < |db.orders| ==> db.orders[i].id != db.orders[j].id)
    && (forall i :: 0 <= i < |db.orderItems| ==> db.orderItems[i].orderId < db.nextOrderId)
    && (forall i :: 0 <= i < |db.orderItems| ==> db.orderItems[i].id < db.nextOrderItemId)
    && (forall i, j :: 0 <= i < j < |db.orderItems| ==> db.orderItems[i].id != db.orderItems[j].id)
  }

  /** Every order's total is the sum of price × quantity over its order lines. */
  ghost predicate OrderTotalsMatch(db: Db)
  {
    forall i :: 0 <= i < |db.orders| ==>
      db.orders[i].total == SumBy(Amount, ItemsOfOrder(db.orderItems, db.orders[i].id))
  }

  /** The invariant of the store: keys are unique, fresh ids are above every used one,
      stock is never negative, carts hold one line per product, and totals match lines. */
  ghost predicate Valid(db: Db)
  {
    && ProductIdsUnique(db.products)
    && StockNonNegative(db.products)
    && CartIdsFresh(db.cartItems, db.nextCartItemId)
    && OneLinePerProduct(db.cartItems)
    && OrderIdsFresh(db)
    && OrderTotalsMatch(db)
  }
}
