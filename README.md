# Mobile store: cart, checkout, catalog and order routes, filter panel and saved logins

This project models the core of a small mobile-phone web shop in Dafny and proves properties of the model:

- the Express route handlers of the server that read and change the SQLite store:
  - the cart (`server/src/routes/cart.ts`);
  - checkout, which turns a cart into an order (`server/src/routes/checkout.ts`);
  - the catalog with its filters, sorting, pagination and facets (`server/src/routes/products.ts`);
  - the order history (`server/src/routes/orders.ts`);
- two pieces of client logic:
  - the filter panel's handlers, which build the next filters value (`client/src/components/ProductFilters.tsx`);
  - the login page's saved-email suggestions and the update that remembers an email (`client/src/pages/Login.tsx`).

The store is the four tables `products`, `cart_items`, `orders` and `order_items`. Each table is a sequence of rows in rowid order, together with the ids the next inserted rows receive (`Tables.Db`). `Tables.Valid` is the invariant the routes keep:

- product and cart ids are unique;
- ids handed out next are fresh;
- stock is never negative;
- a cart has one line per product;
- every order's total equals the sum of price × quantity over its order lines.

Each route is a function from the store and the request to the new store and the response (`CartRoute`, `CheckoutRoute`, `ProductsRoute`, `OrdersRoute`). The routes that write run their SQL statements one after another. Their steps and loops are carried out in place by the class `Database.Store`. Its four route methods (`AddToCart`, `UpdateCartItem`, `RemoveCartItem`, `Checkout`) are proved to leave the store exactly as their route functions say and to keep the invariant. Its helper `Transact`, which carries out the checkout transaction, is proved to leave the store as `CheckoutRoute.Place` says and to return the next order id; the invariant across it is proved for `Checkout` as a whole. The catalog handler assembles its SQL text term by term. `ProductsRoute.Plan` models that assembly, and `PlanSelectsListing` proves that the statement selects exactly the page that `ListProducts` describes.

Modules:

- `Text` (strings), `Seqs` (filter, sum, stable sort, window)
- `Tables` (rows, errors, invariant)
- `CartRoute`, `CheckoutRoute`, `Database` (the mutable store)
- `ProductsRoute`, `OrdersRoute`
- `ProductFilters`, `SavedEmails`

The clock (`created_at`) and the authenticated user id are parameters.

Where the client and the server expect different things, the model follows the server's code:

- The checkout form offers four payment tags (`client/src/pages/Checkout.tsx:131-134`). `server/src/routes/checkout.ts:16` only checks that a payment method is present, so any non-empty string is accepted.
- The client keeps quantities at 1 or more: the quantity picker stops at 1 (`client/src/pages/ProductDetail.tsx:150`), and the cart page removes a line rather than set it below 1 (`client/src/pages/Cart.tsx:46-50`). POST /cart does not check the quantity in the body (`server/src/routes/cart.ts:51,64`), so a zero or negative quantity is stored (`CartRoute.AddAcceptsNonPositiveQuantity`). Only PUT /cart/:id checks `quantity >= 1`.

## Model

| member | source | states |
|---|---|---|
| Text.Trim | client/src/pages/Login.tsx:48 | `trim()` yields a contiguous piece of the input whose first and last characters are not white space; what it drops at either end is all white space |
| Text.TrimEmptyIff | client/src/pages/Login.tsx:85 | the trimmed email is empty exactly when the input is all white space |
| Text.Split | client/src/components/ProductFilters.tsx:242 | `split('-')` gives at least one part, no part contains the separator, and joining the parts with it gives the input back |
| Text.SplitJoin | client/src/components/ProductFilters.tsx:242 | splitting a join of separator-free parts gives those parts back |
| Seqs.SortBy | server/src/routes/orders.ts:42 | ORDER BY yields a permutation of the rows (same multiset) in key order, ascending or descending |
| Seqs.Distinct | server/src/routes/products.ts:98-100 | SELECT DISTINCT … ORDER BY lists each value of the column exactly once, strictly increasing, and nothing else |
| Tables.FindProduct | server/src/routes/products.ts:127 | the product lookup finds a row with that id, and finds none exactly when no row has that id |
| Tables.FindProductAt | server/src/routes/cart.ts:58 | with product ids unique, the lookup by a row's id finds that very row |
| CartRoute.UserLinesAreJoinedRows | server/src/routes/cart.ts:29-31 | the join is the user's cart rows whose product exists, in table order, each joined with its product: one line per such row and no other line |
| CartRoute.UserLinesComplete | server/src/routes/checkout.ts:27-29 | every cart row of the user whose product exists appears as its joined line |
| CartRoute.UserLinesOrigin | server/src/routes/checkout.ts:21-30 | every joined cart line comes from one of the requesting user's cart rows whose product exists, with that row's id and quantity |
| CartRoute.GetCartContents | server/src/routes/cart.ts:15-35 | GET /cart lists exactly the user's joined lines, each once, newest first, and its total is Σ price × quantity over them |
| CartRoute.FindLine | server/src/routes/cart.ts:69-70 | the existing-line lookup finds a row of this user for this product, and finds none exactly when there is no such row |
| CartRoute.FindOwnedLine | server/src/routes/cart.ts:108-113 | the owned-line lookup finds a row with this id and this user, and finds none exactly when there is no such row |
| CartRoute.AddItem | server/src/routes/cart.ts:51-61 | a failure leaves the store unchanged; "Product ID is required" exactly when the id is absent or 0; "Product not found" exactly when the id is given but no product has it |
| CartRoute.AddMergesIntoExistingLine | server/src/routes/cart.ts:64-82 | for a product already in the cart: 400 exactly when stock is below the requested quantity or below the merged quantity; success exactly when stock covers both, and then only that line's quantity changes, to the sum, and 200 reports it |
| CartRoute.AddInsertsNewLine | server/src/routes/cart.ts:64-88 | for a product not in the cart: 400 exactly when stock is below the quantity (1 when absent); success exactly when stock covers it, and then one line is appended with the next id, and nothing else changes |
| CartRoute.AddAcceptsNonPositiveQuantity | server/src/routes/cart.ts:51-88 | a zero or negative quantity for an in-stock product that is not yet in the cart is stored as given |
| CartRoute.AddPreservesValid | server/src/routes/cart.ts:48-94 | adding to the cart keeps the store invariant, including one line per (user, product) |
| CartRoute.UpdateItem | server/src/routes/cart.ts:103-105 | a failure leaves the store unchanged; "Valid quantity is required" exactly when the quantity is missing or below 1 |
| CartRoute.UpdateSetsOnlyThatLine | server/src/routes/cart.ts:108-126 | 404 exactly when the user owns no line with that id; for an owned line whose product exists, 400 "Insufficient stock" exactly when stock is below the quantity and success exactly when it is not; on success only that line's quantity is set, and nothing else changes |
| CartRoute.UpdatePreservesValid | server/src/routes/cart.ts:97-131 | setting a quantity keeps the store invariant |
| CartRoute.CartFailureStatuses | server/src/routes/cart.ts:53-146 | POST /cart fails with 404 exactly when a product id is given and no product has it, and with 400 otherwise; PUT /cart/:id fails with 404 exactly when the quantity is valid and the user owns no such line, with 500 exactly when that line's product row is missing, and with 400 for a bad quantity or short stock; DELETE /cart/:id fails only with 404 "Cart item not found" |
| CartRoute.RemoveDeletesOnlyThatLine | server/src/routes/cart.ts:139-146 | 404 with nothing changed exactly when the user owns no line with that id; otherwise exactly the lines with that id and user are gone, and the rest keep their order |
| CartRoute.RemovePreservesValid | server/src/routes/cart.ts:134-151 | removing a line keeps the store invariant |
| CheckoutRoute.FirstShortage | server/src/routes/checkout.ts:38-43 | the stock loop stops at the first line whose stock is below its quantity; when it finds none, no line is short |
| CheckoutRoute.Checkout | server/src/routes/checkout.ts:16-34 | a failure leaves the store unchanged; 400 for missing details exactly when an address or payment method is empty; "Cart is empty" exactly when both are given and the user has no joined cart lines |
| CheckoutRoute.EmptyCartIffNoRows | server/src/routes/checkout.ts:21-34 | "Cart is empty" exactly when the details are present and the user has no cart row whose product exists |
| CheckoutRoute.CheckoutFailureResponses | server/src/routes/checkout.ts:16-43 | every checkout failure is a 400 whose message names the missing details, the empty cart, or the decimal id of a cart product whose stock is short |
| CheckoutRoute.CheckoutRejectsShortStock | server/src/routes/checkout.ts:37-45 | with details and a non-empty cart, checkout fails exactly when some line's stock is below its quantity, and names the product of the first such line |
| CheckoutRoute.CheckoutRecordsOrder | server/src/routes/checkout.ts:48-84 | on success: one "pending" order with the next id; its total is the cart page's total and the sum over its order lines; the order lines are one per cart line, with its product, quantity and current price, each within stock |
| CheckoutRoute.PlaceOrderItems | server/src/routes/checkout.ts:67-70 | the insertion loop files exactly one order line per cart line under the new order, and their amounts add up to the total |
| CheckoutRoute.TakeAllStockEffect | server/src/routes/checkout.ts:69 | the stock updates lower each product's stock by the total quantity of its lines and change nothing else |
| CheckoutRoute.QuantityOfDistinct | server/src/routes/checkout.ts:67-70 | when lines name distinct products, a product's total quantity is its one line's quantity, or 0 |
| CheckoutRoute.UserLinesDistinct | server/src/routes/checkout.ts:21-30 | with one cart row per (user, product), the user's joined lines name distinct products |
| CheckoutRoute.LineStock | server/src/routes/checkout.ts:26 | a joined line carries the stock of the product row it names |
| CheckoutRoute.CheckoutTakesStock | server/src/routes/checkout.ts:67-70 | with one cart row per product, success lowers each purchased product's stock by exactly its cart quantity, leaves the others alone, and keeps stock non-negative |
| CheckoutRoute.CheckoutEmptiesCart | server/src/routes/checkout.ts:73 | on success the user has no cart lines left, and every other user's lines remain, in order |
| CheckoutRoute.OlderOrderItems | server/src/routes/checkout.ts:67-70 | the lines filed under the new order do not change the lines of any earlier order |
| CheckoutRoute.PlaceKeepsOrderIds | server/src/routes/checkout.ts:50-70 | the transaction keeps order and order-line ids unique and below the next ids |
| CheckoutRoute.PlaceKeepsTotals | server/src/routes/checkout.ts:48-76 | after the transaction every order's total still equals the sum over its lines |
| CheckoutRoute.CheckoutPreservesValid | server/src/routes/checkout.ts:11-89 | checkout keeps the store invariant |
| CheckoutRoute.DuplicateLinesOversell | server/src/routes/checkout.ts:38-45 | without one line per product the per-line check is not enough: two lines of one unit against a stock of one both pass, and stock ends at -1 |
| Database.Store.constructor | server/src/db/database.ts:23 | the store holds the given tables and satisfies the invariant |
| Database.Store.AddToCart | server/src/routes/cart.ts:48-94 | the in-place POST /cart leaves the store and answers exactly as `CartRoute.AddItem`, and keeps the invariant |
| Database.Store.UpdateCartItem | server/src/routes/cart.ts:97-131 | the in-place PUT /cart/:id agrees with `CartRoute.UpdateItem` and keeps the invariant |
| Database.Store.RemoveCartItem | server/src/routes/cart.ts:134-151 | the in-place DELETE /cart/:id agrees with `CartRoute.RemoveItem` and keeps the invariant |
| Database.Store.Checkout | server/src/routes/checkout.ts:11-84 | validation, the stock-and-total loop and the transaction together agree with `CheckoutRoute.Checkout` and keep the invariant |
| Database.Store.Transact | server/src/routes/checkout.ts:48-76 | the transaction returns the next order id and leaves the store as `CheckoutRoute.Place` says: order inserted, one order line and one stock update per line, user's cart deleted |
| ProductsRoute.PlatformCases | server/src/routes/products.ts:27-42 | iPhone and Android together, or neither, constrain nothing; only iPhone keeps exactly the Apple products; only Android keeps exactly the others |
| ProductsRoute.SortColumnAllowList | server/src/routes/products.ts:77-78 | each of the four allowed columns is taken as itself; any other value falls back to name |
| ProductsRoute.Offset | server/src/routes/products.ts:91 | the offset is non-negative for a page of at least 1 and a limit that is not negative |
| ProductsRoute.Slice | server/src/routes/products.ts:92-95 | LIMIT/OFFSET yields the consecutive rows from the offset (a negative offset counts as 0): none past the end, otherwise all remaining rows when the limit is negative or fewer than `limit` remain, else exactly `limit` |
| ProductsRoute.SliceAtMost | server/src/routes/products.ts:92 | a limit that is not negative bounds the number of rows |
| ProductsRoute.CeilDivBounds | server/src/routes/products.ts:108 | `Math.ceil(total / limit)` is the least page count whose pages cover the total |
| ProductsRoute.FacetsDescribeTable | server/src/routes/products.ts:98-100 | each facet lists every value of its column in the whole table, once, in increasing order, and nothing else |
| ProductsRoute.RankedContents | server/src/routes/products.ts:45-81 | the filtered, ordered rows are exactly the matching products, each as often as in the table, in the requested order |
| ProductsRoute.ListingIsPageOfMatches | server/src/routes/products.ts:84-95 | every listed product matches every supplied filter; the page is the run of ranked matches starting at (page - 1) × limit, at most `limit` long and ordered; the total counts every match |
| ProductsRoute.PagesCoverMatches | server/src/routes/products.ts:89-108 | with a positive limit, every match appears on the page that starts at or before it, and that page is within totalPages |
| ProductsRoute.PageOfRow | server/src/routes/products.ts:91 | match j is row j mod limit of page j div limit + 1, which is within ceil(n / limit) |
| ProductsRoute.PageNonEmptyIff | server/src/routes/products.ts:89-108 | with a positive page and limit, a page has rows exactly when it is within totalPages |
| ProductsRoute.RankedIgnoresPage | server/src/routes/products.ts:84-86 | the page number plays no part in which rows match or in their order |
| ProductsRoute.FacetsIgnoreQuery | server/src/routes/products.ts:98-100 | the facets do not depend on the query |
| ProductsRoute.Plan | server/src/routes/products.ts:23-93 | the WHERE terms the handler appends hold of a product exactly when it matches every supplied filter; the ORDER BY column and direction are the allow-listed ones; LIMIT is `limit` and OFFSET is (page - 1) × limit |
| ProductsRoute.PlanSelectsListing | server/src/routes/products.ts:95 | the assembled statement returns exactly the listing's page |
| ProductsRoute.GetProduct | server/src/routes/products.ts:127-133 | 404 exactly when no product has the id; otherwise the product with that id |
| OrdersRoute.ListOrdersOnlyMine | server/src/routes/orders.ts:15-51 | every listed order is one of the requesting user's orders, shown with its own lines |
| OrdersRoute.ListOrdersAllMine | server/src/routes/orders.ts:40-43 | every order of the user is listed, one entry per order |
| OrdersRoute.ListOrdersNewestFirst | server/src/routes/orders.ts:42 | the list is ordered by creation time, newest first |
| OrdersRoute.ItemViewsAreOrderLines | server/src/routes/orders.ts:23-39 | when every order line names an existing product, an order's items are exactly its lines, in table order, with the stored price and the product's descriptive columns |
| OrdersRoute.NoLinesNoItems | server/src/routes/orders.ts:46-49 | an order without lines lists no items |
| OrdersRoute.FindOrder | server/src/routes/orders.ts:64-74 | the lookup finds an order with that id owned by the user, and finds none exactly when there is no such order |
| OrdersRoute.GetOrder | server/src/routes/orders.ts:59-98 | 404 exactly when the user owns no order with that id; otherwise that order with its lines |
| ProductFilters.HandleChange | client/src/components/ProductFilters.tsx:35-39 | the changed key takes the new value, every other key and the platforms are kept |
| ProductFilters.FiltersExtensional | client/src/components/ProductFilters.tsx:3-12 | filters that agree on every key and on the platforms are equal |
| ProductFilters.CheckAppends | client/src/components/ProductFilters.tsx:41-54 | checking a platform appends it, one occurrence more than before, and changes nothing else |
| ProductFilters.UncheckRemovesAll | client/src/components/ProductFilters.tsx:41-54 | unchecking removes every occurrence, keeps the other platforms in order and as often as before, and changes nothing else |
| ProductFilters.RemoveIsUncheck | client/src/components/ProductFilters.tsx:56-62 | the chip's remove button has the same effect as unchecking the box |
| ProductFilters.ClearFilters | client/src/components/ProductFilters.tsx:64-77 | clearing empties every filter and the platforms and resets the sort to name ascending |
| ProductFilters.SortValueRoundTrip | client/src/components/ProductFilters.tsx:240-242 | splitting the displayed `sort-order` value gives back the sort and order it was made of |
| ProductFilters.SortOptionsRoundTrip | client/src/components/ProductFilters.tsx:248-251 | each of the four options splits into its pair and joins back to itself |
| ProductFilters.SortSelectAsWrittenKeepsOldSort | client/src/components/ProductFilters.tsx:241-245 | as written, the last filters value handed to the page keeps the old sort column |
| ProductFilters.SortByPriceIsLost | client/src/components/ProductFilters.tsx:241-245 | from name ascending, choosing "Price (Low to High)" leaves the page's filters unchanged |
| ProductFilters.SortSelectTakesOption | client/src/components/ProductFilters.tsx:241-251 | applying both changes in turn sets exactly the chosen sort and order and keeps every other filter |
| SavedEmails.Suggestions | client/src/pages/Login.tsx:47-58 | the suggestion list is shown exactly when it is not empty |
| SavedEmails.BlankInputSuggestsNothing | client/src/pages/Login.tsx:54-56 | blank input or no saved emails gives no suggestions and hides the list |
| SavedEmails.SuggestionsAreMatches | client/src/pages/Login.tsx:48-53 | for non-blank input the suggestions are exactly the saved emails whose lower case contains the input's lower case, in saved order, each as often as in the saved list |
| SavedEmails.RememberPrepends | client/src/pages/Login.tsx:85-86 | a new email goes first, and the oldest entries beyond ten fall off the end |
| SavedEmails.RememberLeavesListAlone | client/src/pages/Login.tsx:82-93 | a failed login, a blank email or one already saved after trimming leaves the list exactly as it was |
| SavedEmails.RememberKeepsInvariant | client/src/pages/Login.tsx:84-89 | a list of at most ten distinct emails stays so, and after a login the trimmed email is in it |

## Left out

- Money is a whole number. The source uses JavaScript floating point, multiplies price by quantity, and rounds the total with `toFixed(2)` and `parseFloat`. Rounding and floating-point error are not modelled. The seeded prices are whole numbers.
- `parseFloat` on the price bounds and `parseInt` on `page` and `limit` are not modelled. The query holds the parsed numbers, and inputs that parse to NaN are not covered. Price bounds are whole numbers.
- Non-numeric path ids are not modelled; ids are integers.
- Request bodies: `product_id` and `quantity` are whole numbers or absent. String, null or fractional values are not modelled. With a string quantity, `existingItem.quantity + quantity` would concatenate (`server/src/routes/cart.ts:74`). A null quantity skips the default of 1 (`server/src/routes/cart.ts:51`). The check `!quantity || quantity < 1` is modelled for numbers only (`server/src/routes/cart.ts:103`). The client sends whole numbers (`client/src/context/CartContext.tsx:71-82`).
- An array-valued `sort` or `order` parameter is not modelled.
- LIKE is modelled as an ASCII case-insensitive substring test. The `%` and `_` wildcards inside a user-supplied term, and SQLite's other LIKE details, are not modelled.
- `toLowerCase` is modelled for ASCII letters only; full Unicode case mapping is not modelled. `trim` removes the white space and line terminators JavaScript's `trim` removes.
- Row order without ORDER BY: the model returns rows in rowid order, which SQLite does not promise; an index could change it. This order decides which product checkout names when several lines are short (`server/src/routes/checkout.ts:38-43`), the order of the new order-line ids, and the order of an order's items.
- The tie order of ORDER BY: rows with equal keys keep table order, because the model sorts with a stable insertion sort. SQLite leaves that order unspecified.
- `json_group_array` element order: the model lists an order's lines in table order.
- JSON parsing of `items` in the order list, HTTP framing and the `message` fields of success bodies are not modelled.
- Order lines whose product row no longer exists are dropped by the inner join in the model as in the source. The lemmas about items assume every line's product exists.
- Concurrency: requests are modelled one at a time. The stock check in checkout runs outside the transaction, and interleaving with other requests is not modelled. The transaction is modelled as atomic.
- Any other thrown error (the `500 Internal server error` catch blocks) is not modelled. The exception is a cart line whose product row is missing in PUT /cart/:id, which reads `product.stock` of undefined and is modelled as `Internal`.
- Authentication (JWT middleware): the user id is a trusted parameter. `server/src/middleware/auth.ts` is not part of this model.
- `created_at` timestamps come from the clock and are a parameter `now`. Ids are SQLite rowids, handed out from the `next…` counters.
- The schema and seed data (`server/src/db/`) are not part of this model. The uniqueness and stock invariants are stated as `Tables.Valid` and proved to be kept by every route.
- Browser storage in the login page: loading `localStorage`, the click-outside and blur timers, and rendering are not modelled. Only the values of the saved list and the suggestions are modelled.
- The filter panel's rendering, the debounced search bar (`client/src/components/SearchBar.tsx`) and React's effect that copies the page's filters into the panel are not modelled. Each handler is modelled as the value it emits.
- ProductsRoute.Slice: SQLite's LIMIT/OFFSET also allows expressions and overflowing values; only integers are modelled.
- CartRoute.UserLines: its own contract states only a length bound. What the join holds is stated by `CartRoute.UserLinesAreJoinedRows`, `CartRoute.UserLinesComplete`, `CartRoute.UserLinesOrigin` and `CartRoute.UserLinesAvoid`.

## Findings

| source | as written | input that shows it | evidently intended | confidence | as-written member | corrected member |
|---|---|---|---|---|---|---|
| client/src/components/ProductFilters.tsx:241-245 | the sort select's `onChange` calls `handleChange('sort', …)` and then `handleChange('order', …)`. Both calls spread the same `localFilters` snapshot, and the page keeps the last value handed to `onFiltersChange` (`setFilters`), so the new sort is overwritten by a copy that still has the old sort | filters cleared (sort "name", order "ASC"); choose "Price (Low to High)" (`price-ASC`); the page's filters stay equal to the cleared ones and the catalog stays sorted by name | set the sort and the order together, so that any option takes effect | not executed | ProductFilters.SortByPriceIsLost | ProductFilters.SortSelectTakesOption |
