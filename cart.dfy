/** The cart routes of the server (`/api/cart`): the user's cart with its total,
    adding a product (merging into the user's existing line for it), setting a
    line's quantity and removing a line. Each handler is a function from the store
    and the request to the new store and the response; Database.Store carries
    them out in place. */
module CartRoute {
  import opened Text
  import opened Seqs
  import opened Tables

  /** A row of GET /cart: a cart line joined with its product's current columns. */
  datatype CartLine = CartLine(
    id: int, quantity: int, createdAt: int, productId: int, name: string, brand: string,
    model: string, price: int, storage: string, color: string, imageUrl: string, stock: int)

  /** The body of GET /cart. */
  datatype CartPage = CartPage(items: seq<CartLine>, total: int)

  /** The success bodies of POST /cart: 200 with the merged quantity, or 201. */
  datatype Added = Merged(quantity: int) | Inserted

  /** `cart_items ci JOIN products p ON ci.product_id = p.id` for one cart row. */
  function Joined(ps: seq<Product>, c: CartItem): Option<CartLine>
  {
    match FindProduct(ps, c.productId)
    case None => None
    case Some(p) =>
      Some(CartLine(c.id, c.quantity, c.createdAt, p.id, p.name, p.brand, p.model, p.price,
                    p.storage, p.color, p.imageUrl, p.stock))
  }

  /** The user's cart rows joined with their products, in cart table order
      (`... WHERE ci.user_id = ?` without ORDER BY). */
  function UserLines(ps: seq<Product>, items: seq<CartItem>, userId: int): (r: seq<CartLine>)
    ensures |r| <= |items|
  {
    if items == [] then []
    else if items[0].userId == userId && Joined(ps, items[0]).Some? then
      [Joined(ps, items[0]).value] + UserLines(ps, items[1..], userId)
    else
      UserLines(ps, items[1..], userId)
  }

  /** Every joined line comes from one of the user's cart rows. */
  lemma {:induction false} UserLinesOrigin(ps: seq<Product>, items: seq<CartItem>, userId: int, k: int)
    requires 0 <= k < |UserLines(ps, items, userId)|
    ensures exists i :: 0 <= i < |items| && items[i].userId == userId
                        && Joined(ps, items[i]) == Some(UserLines(ps, items, userId)[k])
  {
    var line := UserLines(ps, items, userId)[k];
    if items[0].userId == userId && Joined(ps, items[0]).Some? && k == 0 {
      assert Joined(ps, items[0]) == Some(line);
    } else {
      var k' := if items[0].userId == userId && Joined(ps, items[0]).Some? then k - 1 else k;
      UserLinesOrigin(ps, items[1..], userId, k');
      var i :| 0 <= i < |items[1..]| && items[1..][i].userId == userId
               && Joined(ps, items[1..][i]) == Some(UserLines(ps, items[1..], userId)[k']);
      assert items[i + 1] == items[1..][i];
    }
  }

  /** A cart row of this user whose product row exists: the rows the inner join keeps. */
  function Joinable(ps: seq<Product>, userId: int): CartItem -> bool
  {
    (c: CartItem) => c.userId == userId && Joined(ps, c).Some?
  }

  /** The join is the user's rows with an existing product, in cart table order, each
      joined with its product: one line per such row and no other line. */
  lemma {:induction false} UserLinesAreJoinedRows(ps: seq<Product>, items: seq<CartItem>, userId: int)
    ensures var rows := Filter(Joinable(ps, userId), items);
      var lines := UserLines(ps, items, userId);
      && |lines| == |rows|
      && forall k :: 0 <= k < |rows| ==> Joined(ps, rows[k]) == Some(lines[k])
  {
    if items != [] {
      UserLinesAreJoinedRows(ps, items[1..], userId);
      var rest := Filter(Joinable(ps, userId), items[1..]);
      var rows := Filter(Joinable(ps, userId), items);
      var lines := UserLines(ps, items, userId);
      if Joinable(ps, userId)(items[0]) {
        assert rows == [items[0]] + rest;
        assert lines == [Joined(ps, items[0]).value] + UserLines(ps, items[1..], userId);
        forall k | 0 <= k < |rows| ensures Joined(ps, rows[k]) == Some(lines[k]) {
          if k > 0 {
            assert rows[k] == rest[k - 1];
          }
        }
      } else {
        assert rows == rest;
      }
    }
  }

  /** Every cart row of the user whose product row exists shows up as its joined line. */
  lemma UserLinesComplete(ps: seq<Product>, items: seq<CartItem>, userId: int, i: int)
    requires 0 <= i < |items| && items[i].userId == userId && Joined(ps, items[i]).Some?
    ensures Joined(ps, items[i]).value in UserLines(ps, items, userId)
  {
    var rows := Filter(Joinable(ps, userId), items);
    UserLinesAreJoinedRows(ps, items, userId);
    assert Joinable(ps, userId)(items[i]);
    var k :| 0 <= k < |rows| && rows[k] == items[i];
  }

  /** A user's cart line whose product row exists never names a product that no
      such cart line names. */
  lemma {:induction false} UserLinesAvoid(ps: seq<Product>, items: seq<CartItem>, userId: int, productId: int)
    requires forall i :: 0 <= i < |items| && items[i].userId == userId ==> items[i].productId != productId
    ensures forall k :: 0 <= k < |UserLines(ps, items, userId)| ==> UserLines(ps, items, userId)[k].productId != productId
  {
    if items != [] {
      UserLinesAvoid(ps, items[1..], userId, productId);
    }
  }

  function LineAmount(line: CartLine): int
  {
    line.price * line.quantity
  }

  function Newest(line: CartLine): Key
  {
    Num(line.createdAt)
  }

  /** GET /cart: the user's lines, newest first, and the sum of price × quantity. */
  function GetCart(db: Db, userId: int): CartPage
  {
    var items := SortBy(Newest, true, UserLines(db.products, db.cartItems, userId));
    CartPage(items, SumBy(LineAmount, items))
  }

  /** GET /cart lists exactly the requesting user's cart lines (each once), newest
      first, and its total is Σ price × quantity over them. */
  lemma GetCartContents(db: Db, userId: int)
    ensures var page := GetCart(db, userId);
      && multiset(page.items) == multiset(UserLines(db.products, db.cartItems, userId))
      && SortedBy(Newest, true, page.items)
      && page.total == SumBy(LineAmount, UserLines(db.products, db.cartItems, userId))
      && forall k :: 0 <= k < |page.items| ==>
           exists i :: 0 <= i < |db.cartItems| && db.cartItems[i].userId == userId
                       && db.cartItems[i].id == page.items[k].id
  {
    var lines := UserLines(db.products, db.cartItems, userId);
    var page := GetCart(db, userId);
    SortBySum(Newest, true, LineAmount, lines);
    forall k | 0 <= k < |page.items|
      ensures exists i :: 0 <= i < |db.cartItems| && db.cartItems[i].userId == userId
                          && db.cartItems[i].id == page.items[k].id
    {
      SortByMembers(Newest, true, lines, page.items[k]);
      var m :| 0 <= m < |lines| && lines[m] == page.items[k];
      UserLinesOrigin(db.products, db.cartItems, userId, m);
      var i :| 0 <= i < |db.cartItems| && db.cartItems[i].userId == userId
               && Joined(db.products, db.cartItems[i]) == Some(lines[m]);
    }
  }

  /** `SELECT * FROM cart_items WHERE user_id = ? AND product_id = ?` with `.get`: the position
      of the first such row. */
  function FindLine(items: seq<CartItem>, userId: int, productId: int): (r: Option<nat>)
    ensures r.Some? ==> r.value < |items| && items[r.value].userId == userId
                        && items[r.value].productId == productId
    ensures r.None? ==> forall i :: 0 <= i < |items| ==>
                          items[i].userId != userId || items[i].productId != productId
  {
    if items == [] then None
    else if items[0].userId == userId && items[0].productId == productId then Some(0)
    else match FindLine(items[1..], userId, productId)
      case None => None
      case Some(k) => Some(k + 1)
  }

  /** `SELECT * FROM cart_items WHERE id = ? AND user_id = ?` with `.get`. */
  function FindOwnedLine(items: seq<CartItem>, id: int, userId: int): (r: Option<nat>)
    ensures r.Some? ==> r.value < |items| && items[r.value].id == id && items[r.value].userId == userId
    ensures r.None? ==> forall i :: 0 <= i < |items| ==> items[i].id != id || items[i].userId != userId
  {
    if items == [] then None
    else if items[0].id == id && items[0].userId == userId then Some(0)
    else match FindOwnedLine(items[1..], id, userId)
      case None => None
      case Some(k) => Some(k + 1)
  }

  /** `UPDATE cart_items SET quantity = ? WHERE id = ?`. */
  function SetQuantity(items: seq<CartItem>, id: int, quantity: int): (r: seq<CartItem>)
    ensures |r| == |items|
  {
    seq(|items|, i requires 0 <= i < |items| =>
      if items[i].id == id then items[i].(quantity := quantity) else items[i])
  }

  /** POST /cart with body `{ product_id, quantity = 1 }`. */
  function AddItem(db: Db, userId: int, productId: Option<int>, quantity: Option<int>, now: int)
    : (r: (Db, Result<Added>))
    ensures r.1.Fail? ==> r.0 == db
    ensures r.1 == Fail(ProductIdRequired) <==> productId == None || productId == Some(0)
    ensures r.1 == Fail(ProductNotFound) <==>
      productId != None && productId != Some(0) && FindProduct(db.products, productId.value) == None
  {
    var q := match quantity case None => 1 case Some(n) => n;
    if productId == None || productId == Some(0) then (db, Fail(ProductIdRequired))
    else match FindProduct(db.products, productId.value)
      case None => (db, Fail(ProductNotFound))
      case Some(p) =>
        if p.stock < q then (db, Fail(InsufficientStock))
        else match FindLine(db.cartItems, userId, productId.value)
          case Some(k) =>
            var merged := db.cartItems[k].quantity + q;
            if p.stock < merged then (db, Fail(InsufficientStock))
            else (db.(cartItems := SetQuantity(db.cartItems, db.cartItems[k].id, merged)), Ok(Merged(merged)))
          case None =>
            (db.(cartItems := db.cartItems + [CartItem(db.nextCartItemId, userId, productId.value, q, now)],
                 nextCartItemId := db.nextCartItemId + 1),
             Ok(Inserted))
  }

  /** Adding a product the user already has in the cart succeeds exactly when stock
      covers both the requested amount and the sum, and then raises that line's quantity
      by the requested amount; otherwise it fails with 400. No other line and no other
      table changes. */
  lemma AddMergesIntoExistingLine(db: Db, userId: int, p: Product, quantity: Option<int>, now: int, k: nat)
    requires CartIdsFresh(db.cartItems, db.nextCartItemId) && OneLinePerProduct(db.cartItems)
    requires p.id != 0 && FindProduct(db.products, p.id) == Some(p)
    requires k < |db.cartItems| && db.cartItems[k].userId == userId && db.cartItems[k].productId == p.id
    ensures var q := match quantity case None => 1 case Some(n) => n;
      var merged := db.cartItems[k].quantity + q;
      var r := AddItem(db, userId, Some(p.id), quantity, now);
      && (r.1 == Fail(InsufficientStock) <==> p.stock < q || p.stock < merged)
      && (r.1.Ok? <==> p.stock >= q && p.stock >= merged)
      && (r.1.Ok? ==>
            && r.1 == Ok(Merged(merged))
            && r.0 == db.(cartItems := r.0.cartItems)
            && |r.0.cartItems| == |db.cartItems|
            && r.0.cartItems[k] == db.cartItems[k].(quantity := merged)
            && forall i :: 0 <= i < |db.cartItems| && i != k ==> r.0.cartItems[i] == db.cartItems[i])
  {
    var found := FindLine(db.cartItems, userId, p.id);
    assert found == Some(k);
  }

  /** Adding a product the user does not have in the cart succeeds exactly when stock
      covers the requested quantity (1 when the body has none), and then appends one line
      with that quantity and the next cart id; otherwise it fails with 400. */
  lemma AddInsertsNewLine(db: Db, userId: int, p: Product, quantity: Option<int>, now: int)
    requires p.id != 0 && FindProduct(db.products, p.id) == Some(p)
    requires forall i :: 0 <= i < |db.cartItems| ==>
      db.cartItems[i].userId != userId || db.cartItems[i].productId != p.id
    ensures var q := match quantity case None => 1 case Some(n) => n;
      var r := AddItem(db, userId, Some(p.id), quantity, now);
      && (r.1 == Fail(InsufficientStock) <==> p.stock < q)
      && (r.1.Ok? <==> p.stock >= q)
      && (r.1.Ok? ==>
            && r.1 == Ok(Inserted)
            && r.0.cartItems == db.cartItems + [CartItem(db.nextCartItemId, userId, p.id, q, now)]
            && r.0 == db.(cartItems := r.0.cartItems, nextCartItemId := db.nextCartItemId + 1))
  {
  }

  /** The quantity in the body is not range-checked: a zero or negative quantity for a
      product that is in stock and not yet in the cart is stored as it is. */
  lemma AddAcceptsNonPositiveQuantity(db: Db, userId: int, p: Product, q: int, now: int)
    requires p.id != 0 && FindProduct(db.products, p.id) == Some(p) && p.stock >= 0
    requires forall i :: 0 <= i < |db.cartItems| ==>
      db.cartItems[i].userId != userId || db.cartItems[i].productId != p.id
    requires q <= 0
    ensures AddItem(db, userId, Some(p.id), Some(q), now).1 == Ok(Inserted)
    ensures CartItem(db.nextCartItemId, userId, p.id, q, now) in AddItem(db, userId, Some(p.id), Some(q), now).0.cartItems
  {
  }

  lemma {:induction false} SetQuantityKeepsKeys(items: seq<CartItem>, id: int, quantity: int, next: int)
    requires CartIdsFresh(items, next) && OneLinePerProduct(items)
    ensures CartIdsFresh(SetQuantity(items, id, quantity), next)
    ensures OneLinePerProduct(SetQuantity(items, id, quantity))
  {
    var r := SetQuantity(items, id, quantity);
    assert forall i :: 0 <= i < |items| ==>
      r[i].id == items[i].id && r[i].userId == items[i].userId && r[i].productId == items[i].productId;
  }

  /** Adding to the cart keeps the store invariant; in particular the merge keeps at
      most one line per (user, product). */
  lemma AddPreservesValid(db: Db, userId: int, productId: Option<int>, quantity: Option<int>, now: int)
    requires Valid(db)
    ensures Valid(AddItem(db, userId, productId, quantity, now).0)
  {
    var r := AddItem(db, userId, productId, quantity, now);
    if r.1.Ok? {
      var pid := productId.value;
      match FindLine(db.cartItems, userId, pid)
      case Some(k) =>
        SetQuantityKeepsKeys(db.cartItems, db.cartItems[k].id, r.0.cartItems[k].quantity, db.nextCartItemId);
      case None =>
        var items := r.0.cartItems;
        assert items == db.cartItems + [CartItem(db.nextCartItemId, userId, pid, items[|items| - 1].quantity, now)];
    }
  }

  /** PUT /cart/:id with body `{ quantity }`. */
  function UpdateItem(db: Db, userId: int, itemId: int, quantity: Option<int>): (r: (Db, Result<int>))
    ensures r.1.Fail? ==> r.0 == db
    ensures r.1 == Fail(InvalidQuantity) <==> quantity == None || quantity.value < 1
  {
    if quantity == None || quantity.value < 1 then (db, Fail(InvalidQuantity))
    else match FindOwnedLine(db.cartItems, itemId, userId)
      case None => (db, Fail(CartItemNotFound))
      case Some(k) =>
        match FindProduct(db.products, db.cartItems[k].productId)
        case None => (db, Fail(Internal))
        case Some(p) =>
          if p.stock < quantity.value then (db, Fail(InsufficientStock))
          else (db.(cartItems := SetQuantity(db.cartItems, itemId, quantity.value)), Ok(quantity.value))
  }

  /** Updating fails with 404 exactly when the user owns no line with that id; for an
      owned line whose product exists it fails with 400 exactly when stock is below the
      quantity and succeeds otherwise. On success that one line's quantity is set and
      nothing else in the store changes. */
  lemma UpdateSetsOnlyThatLine(db: Db, userId: int, itemId: int, q: int)
    requires Valid(db) && q >= 1
    ensures var r := UpdateItem(db, userId, itemId, Some(q));
      && (r.1 == Fail(CartItemNotFound) <==>
            forall i :: 0 <= i < |db.cartItems| ==> db.cartItems[i].id != itemId || db.cartItems[i].userId != userId)
      && (r.1.Ok? ==>
            && r.1 == Ok(q)
            && r.0 == db.(cartItems := r.0.cartItems)
            && |r.0.cartItems| == |db.cartItems|
            && exists k :: 0 <= k < |db.cartItems| && db.cartItems[k].id == itemId && db.cartItems[k].userId == userId
                 && FindProduct(db.products, db.cartItems[k].productId).value.stock >= q
                 && r.0.cartItems[k] == db.cartItems[k].(quantity := q)
                 && forall i :: 0 <= i < |db.cartItems| && i != k ==> r.0.cartItems[i] == db.cartItems[i])
      && (forall k :: 0 <= k < |db.cartItems| && db.cartItems[k].id == itemId && db.cartItems[k].userId == userId
                      && FindProduct(db.products, db.cartItems[k].productId).Some? ==>
            var stock := FindProduct(db.products, db.cartItems[k].productId).value.stock;
            && (r.1 == Fail(InsufficientStock) <==> stock < q)
            && (r.1 == Ok(q) <==> stock >= q))
  {
    var r := UpdateItem(db, userId, itemId, Some(q));
    if r.1.Ok? {
      var k := FindOwnedLine(db.cartItems, itemId, userId).value;
      assert forall i :: 0 <= i < |db.cartItems| && i != k ==> db.cartItems[i].id != itemId;
    }
    forall k | 0 <= k < |db.cartItems| && db.cartItems[k].id == itemId && db.cartItems[k].userId == userId
                 && FindProduct(db.products, db.cartItems[k].productId).Some?
      ensures var stock := FindProduct(db.products, db.cartItems[k].productId).value.stock;
        && (r.1 == Fail(InsufficientStock) <==> stock < q)
        && (r.1 == Ok(q) <==> stock >= q)
    {
      var j := FindOwnedLine(db.cartItems, itemId, userId).value;
      assert db.cartItems[j].id == db.cartItems[k].id;
      assert j == k;
    }
  }

  lemma UpdatePreservesValid(db: Db, userId: int, itemId: int, quantity: Option<int>)
    requires Valid(db)
    ensures Valid(UpdateItem(db, userId, itemId, quantity).0)
  {
    if UpdateItem(db, userId, itemId, quantity).1.Ok? {
      SetQuantityKeepsKeys(db.cartItems, itemId, quantity.value, db.nextCartItemId);
    }
  }

  function NotLine(itemId: int, userId: int): CartItem -> bool
  {
    (c: CartItem) => c.id != itemId || c.userId != userId
  }

  /** DELETE /cart/:id: `DELETE FROM cart_items WHERE id = ? AND user_id = ?`, 404 when
      no row was deleted. */
  function RemoveItem(db: Db, userId: int, itemId: int): (r: (Db, Result<()>))
  {
    var kept := Filter(NotLine(itemId, userId), db.cartItems);
    if |kept| == |db.cartItems| then (db, Fail(CartItemNotFound))
    else (db.(cartItems := kept), Ok(()))
  }

  /** Removing fails with 404 and changes nothing exactly when the user owns no line with
      that id; otherwise exactly the lines matching both id and user are gone, the rest
      keep their order, and nothing else changes. */
  lemma {:induction false} RemoveDeletesOnlyThatLine(db: Db, userId: int, itemId: int)
    ensures var r := RemoveItem(db, userId, itemId);
      && (r.1 == Fail(CartItemNotFound) <==>
            forall i :: 0 <= i < |db.cartItems| ==> db.cartItems[i].id != itemId || db.cartItems[i].userId != userId)
      && (r.1.Fail? ==> r.0 == db)
      && (r.1.Ok? ==>
            && r.0 == db.(cartItems := r.0.cartItems)
            && |r.0.cartItems| < |db.cartItems|
            && SubsequenceOf(r.0.cartItems, db.cartItems)
            && (forall c :: c in r.0.cartItems <==> c in db.cartItems && (c.id != itemId || c.userId != userId)))
  {
    var keep := NotLine(itemId, userId);
    var kept := Filter(keep, db.cartItems);
    FilterSubsequence(keep, db.cartItems);
    FilterKeepsAllIff(keep, db.cartItems);
    forall c ensures c in kept <==> c in db.cartItems && keep(c) {
      if c in db.cartItems && keep(c) {
        var i :| 0 <= i < |db.cartItems| && db.cartItems[i] == c;
      }
    }
  }

  /** Filtering keeps every element exactly when the predicate holds throughout. */
  lemma {:induction false} FilterKeepsAllIff(keep: CartItem -> bool, s: seq<CartItem>)
    ensures |Filter(keep, s)| == |s| <==> forall i :: 0 <= i < |s| ==> keep(s[i])
  {
    if s != [] {
      FilterKeepsAllIff(keep, s[1..]);
      if !keep(s[0]) {
        assert |Filter(keep, s)| <= |s[1..]|;
      } else {
        assert forall i :: 1 <= i < |s| ==> s[i] == s[1..][i - 1];
      }
    }
  }

  /** Keeping a subset of the cart lines keeps their keys unique. */
  lemma FilterKeepsCartKeys(keep: CartItem -> bool, items: seq<CartItem>, next: int)
    requires CartIdsFresh(items, next) && OneLinePerProduct(items)
    ensures CartIdsFresh(Filter(keep, items), next) && OneLinePerProduct(Filter(keep, items))
  {
    FilterPairwise(keep, (a: CartItem, b: CartItem) => a.id != b.id, items);
    FilterPairwise(keep, (a: CartItem, b: CartItem) => a.userId != b.userId || a.productId != b.productId, items);
  }

  lemma RemovePreservesValid(db: Db, userId: int, itemId: int)
    requires Valid(db)
    ensures Valid(RemoveItem(db, userId, itemId).0)
  {
    FilterKeepsCartKeys(NotLine(itemId, userId), db.cartItems, db.nextCartItemId);
  }

  /** The status of each cart failure: adding answers 404 exactly when a product id is given
      but no product has it, and 400 otherwise; updating answers 404 exactly when the quantity
      is valid and the user owns no line with that id, 500 exactly when the owned line's product
      row is missing, and 400 otherwise; removing only ever fails with 404. */
  lemma CartFailureStatuses(db: Db, userId: int, productId: Option<int>, quantity: Option<int>,
                            itemId: int, now: int)
    ensures var r := AddItem(db, userId, productId, quantity, now).1;
      r.Fail? ==> && (r.failure.Status() == 404 <==>
                        productId != None && productId != Some(0)
                        && FindProduct(db.products, productId.value) == None)
                  && (r.failure.Status() != 404 ==> r.failure.Status() == 400)
    ensures var r := UpdateItem(db, userId, itemId, quantity).1;
      r.Fail? ==> && (r.failure.Status() == 404 <==>
                        quantity != None && quantity.value >= 1
                        && FindOwnedLine(db.cartItems, itemId, userId) == None)
                  && (r.failure.Status() == 500 <==>
                        quantity != None && quantity.value >= 1
                        && FindOwnedLine(db.cartItems, itemId, userId).Some?
                        && FindProduct(db.products,
                             db.cartItems[FindOwnedLine(db.cartItems, itemId, userId).value].productId) == None)
                  && (r.failure.Status() == 400 <==>
                        r.failure == InvalidQuantity || r.failure == InsufficientStock)
    ensures var r := RemoveItem(db, userId, itemId).1;
      r.Fail? ==> r.failure.Status() == 404 && r.failure.Message() == "Cart item not found"
  {
  }
}
