# Storefront cart and order core, modelled in Dafny

This project models the part of a small e-commerce storefront that carries
invariants, and proves properties of that model:

- **Cart store** (`cart.dfy`, module `Cart`). The client-side cart is a list
  of lines keyed by product id, with `totalItems` and `totalPrice` held beside
  it. `CartStore` is a class with these three fields. `AddItem`, `RemoveItem`,
  `UpdateQuantity` and `ClearCart` update them in place. Each method builds
  the new line list with a pure function (`AddedItems`, `WithoutProduct`,
  `SetQuantity`) and recomputes both totals with `TotalItems` and
  `TotalPrice`, the two `reduce` sums. The class invariant `Valid()` states
  that the totals match the lines and that product ids are unique.
- **Order service** (`orders.dfy`, module `Orders`). The server's order
  routes run over two tables. The product table maps a product id to its
  name, price and stock. The order table is a sequence of order rows.
  `OrderService.CreateOrder` is the validate-then-decrement loop of
  `POST /`. It is proved equal to the pure function `PlaceLines`. A failing
  line ends the request, and stock already taken by earlier lines stays
  taken. `CancelOrder` sets the status to CANCELLED, then restocks line by
  line (`Restock`). `UpdateStatus` overwrites the status with any of the five
  names. `ViewOrder` and `MyOrders` are the two read routes, written as
  functions over the order table.
- **Checkout step** (`checkout.dfy`, module `Checkout`). `OrderStore.CreateOrder`
  is the client's `createOrder`. It checks the token, then checks that the
  cart is not empty. It sends the cart lines as `{productId, quantity}` and
  clears the cart only when the server accepts. The HTTP round trip is the
  parameter `reply`. Lemmas connect the cart model to the order model.
- **Catalog list** (`catalog.dfy`, module `Catalog`). `FilteredProducts` is
  the products page's pipeline: search, then the inclusive price range, then
  the category, then an optional sort. `Categories` is the list of distinct
  category ids.

`wrappers.dfy` holds `Option` and `Result`. `seqs.dfy` holds `Filter`, `Map`,
a stable insertion `Sort` and `Distinct`, which stand for the JavaScript
`Array`/`Set` operations the source uses, with their lemmas.

All amounts are integers: prices and totals in cents, stock and quantities
in units. Quantities are `int` because the code never rejects a zero or
negative quantity, neither in the cart nor on the server. The new order's
status is not given by the route. The model assumes the schema default is
PENDING. The clock (`Date.now()`, `createdAt`) and the database's fresh ids
are parameters.

## Model

| member | source | states |
|---|---|---|
| `Cart.AddToExisting` | src/store/cartStore.ts:41-46 | Adding a product already in the cart raises only that line's quantity by `quantity`. The line count and every other line stay the same. `totalItems` grows by `quantity` and `totalPrice` by the line's own stored price times `quantity`. |
| `Cart.AddNewProduct` | src/store/cartStore.ts:47-57 | Adding a new product appends exactly one line at the end, with the product's id, name, price and image, the given quantity and the fresh line id. The totals grow by that line. |
| `Cart.AddKeepsUnique` | src/store/cartStore.ts:37-57 | If product ids are unique before `addItem`, they are unique after it. |
| `Cart.AddTwice` | src/store/cartStore.ts:35-57 | Adding product P with q1 and then with q2 equals adding P once with q1+q2. The result has one merged line, not two. |
| `Cart.RemoveItemContents` | src/store/cartStore.ts:67 | After `removeItem(p)` no line for p is left. The remaining lines are a subsequence of the old ones in the same order. Every other line survives. If p was absent, the items are unchanged. |
| `Cart.RemoveKeepsUnique` | src/store/cartStore.ts:65-73 | Removing a line keeps product ids unique. |
| `Cart.RemoveTotals` | src/store/cartStore.ts:67-70 | Removing product p's line lowers `totalItems` by its quantity and `totalPrice` by its price × quantity. |
| `Cart.UpdatePresent` | src/store/cartStore.ts:82-87 | Updating a present product sets only that line's quantity. The length, the other lines and uniqueness are kept. The totals move by the difference. |
| `Cart.UpdateAbsent` | src/store/cartStore.ts:82-84 | Updating a product that is not in the cart leaves the lines unchanged. |
| `Cart.TotalsAppend` | src/store/cartStore.ts:59-60 | Both totals of a concatenation are the sums of the parts' totals. |
| `Cart.CartStore.constructor` | src/store/cartStore.ts:31-33 | The store starts empty with zero totals and valid. |
| `Cart.CartStore.AddItem` | src/store/cartStore.ts:35-63 | Keeps `Valid()`. The new items are `AddedItems` of the old ones. `totalItems` grows by `quantity`. `totalPrice` grows by the existing line's price, or the product's price for a new line, times `quantity`. |
| `Cart.CartStore.RemoveItem` | src/store/cartStore.ts:65-73 | Keeps `Valid()`. The new items are the old ones without product p. The totals drop by p's line. If p is absent, nothing changes. |
| `Cart.CartStore.UpdateQuantity` | src/store/cartStore.ts:75-90 | Keeps `Valid()`. A quantity ≤ 0 has exactly the effect of `RemoveItem`. A positive quantity overwrites p's quantity, and `totalItems` moves by new − old. |
| `Cart.CartStore.ClearCart` | src/store/cartStore.ts:92-94 | From any state it yields empty items, zero totals and a valid store. |
| `Orders.ParseStatus` | server/routes/orders.js:177-179 | A string is accepted exactly when it is the name of one of the five statuses, and then it yields that status. |
| `Orders.ParseStatusName` | server/routes/orders.js:177 | Each of the five status names is accepted as its own status. |
| `Orders.DrawnStock` | server/routes/orders.js:139-143 | Taking a list of lines lowers each product's stock by the total quantity requested of it. The price, the name and the set of products are unchanged. |
| `Orders.PlaceSucceedsIffAdmitted` | server/routes/orders.js:116-144 | The create loop succeeds if and only if every line passes the missing-product and stock checks, each checked against the table the earlier lines left. |
| `Orders.PlaceLinesSuccess` | server/routes/orders.js:113-144 | On success the product table is the old one with every requested quantity taken, line by line in list order. There is one order line per requested line. Each order line records the product, the quantity and the price read at check time, so the total is Σ price × quantity at check time. |
| `Orders.PlaceLinesFailure` | server/routes/orders.js:116-129 | On failure there is a first failing line k, and the lines before it passed. The table keeps the decrements of lines 0..k−1. Line k and later lines change nothing. The error is line k's: 404 for a missing product, or 400 with the available stock. |
| `Orders.PlaceKeepsStockNonNegative` | server/routes/orders.js:125-143 | Whatever the outcome of the create loop, no non-negative stock becomes negative. |
| `Orders.RestockEffect` | server/routes/orders.js:231-240 | A restock completes exactly when every line's product exists. Then each product's stock rises by the quantity its lines hold. Products no line refers to are never changed. |
| `Orders.CancelUndoesPlace` | server/routes/orders.js:230-240 | Restocking the lines of a successfully placed order, against the table the placement left, restores the original table exactly. |
| `Orders.IndexOf` | server/routes/orders.js:67-83 | The lookup by id returns the position of the first row with that id, or none when no row has it. |
| `Orders.ViewOrderAccess` | server/routes/orders.js:85-94 | With unique ids, viewing gives 404 exactly when no order has the id. It returns the order exactly when the caller is ADMIN or the owner, and gives 403 exactly otherwise. |
| `Orders.MyOrdersSpec` | server/routes/orders.js:40-51 | My-orders returns exactly the caller's orders, each as many times as it is in the table and nothing else, sorted by `createdAt` descending. |
| `Orders.ViewMatchesMyOrders` | server/routes/orders.js:89-92 | For a caller who is not an admin, the orders they can view are exactly the orders my-orders lists. |
| `Orders.OrderService.CreateOrder` | server/routes/orders.js:102-169 | Keeps order ids unique. A missing or empty `items` gives 400 with no change. Otherwise the product table becomes `PlaceLines`'s table. On success the new order is appended, with status PENDING, total Σ price × quantity and those lines. On failure the loop's error comes back and no order is created. |
| `Orders.OrderService.UpdateStatus` | server/routes/orders.js:172-193 | A status outside the five gives 400 with no change. A missing order gives 500 (the update throws). Otherwise only that order's status is overwritten, with no transition check. |
| `Orders.OrderService.CancelOrder` | server/routes/orders.js:196-247 | A missing order gives 404, a caller who is neither admin nor owner gives 403, and a non-PENDING order gives 400. None of these changes anything. Otherwise the status becomes CANCELLED and the table is restocked line by line. If a line's product is missing, the result is 500 with the earlier increments kept. |
| `Checkout.PayloadShape` | src/store/orderStore.ts:55-58 | The request lines have the cart's length and order, and each carries its cart line's product id and quantity. A non-empty cart gives a non-empty payload. |
| `Checkout.UniqueCartAdmitted` | src/store/orderStore.ts:55-66 | When product ids are unique and every line fits its product's stock, the server admits every line of the payload. No earlier line takes stock from a later line's product. |
| `Checkout.OrderTotalIsCartTotal` | server/routes/orders.js:113-137 | An order placed from the cart's payload, at the prices the cart recorded, has total equal to the cart's `totalPrice`. |
| `Checkout.OrderStore.CreateOrder` | src/store/orderStore.ts:40-85 | With no token: "Authentication required", no request, and nothing else changed. With an empty cart: "Cart is empty" and no request. Otherwise the payload is sent. The cart is cleared only on an ok reply, and then `currentOrder` is the created order and `error` is null. A rejected reply sets the server's message, or the default when it has none. A call that throws sets its error message. On those paths the cart is left as it was. `isLoading` is false at the end of every path. |
| `Catalog.SortStage` | src/pages/ProductsPage.tsx:44-53 | Every sort is a permutation. Any `sortBy` other than the four names leaves the list as it is. |
| `Catalog.FilteredIsOneFilter` | src/pages/ProductsPage.tsx:24-42 | The search, price and category stages, applied in that order, are one order-preserving filter by `Selected`. |
| `Catalog.FilteredProductsContents` | src/pages/ProductsPage.tsx:23-56 | The shown list contains exactly the products that pass a non-empty search (lower-cased name or description contains the lower-cased query), the inclusive price range and, when a category is selected, that category. The list is a permutation of the filtered list, so nothing is added or duplicated. With no recognised sort it is a subsequence of the products. |
| `Catalog.FilteredProductsOrder` | src/pages/ProductsPage.tsx:45-53 | `price-asc` gives non-decreasing prices and `price-desc` non-increasing prices. `name-asc` and `name-desc` give names in ascending or descending name order. |
| `Catalog.NameLeTotal` | src/pages/ProductsPage.tsx:50-52 | The name order that stands for `localeCompare` relates every pair of names. |
| `Catalog.NameLeTransitive` | src/pages/ProductsPage.tsx:50-52 | The name order is transitive. |
| `Catalog.PresentIds` | src/pages/ProductsPage.tsx:59 | `filter(Boolean)` keeps exactly the present, non-empty ids, and it keeps a duplicate-free list duplicate-free. |
| `Catalog.CategoriesSpec` | src/pages/ProductsPage.tsx:59 | The category list has no duplicates and no missing or empty ids. It lists exactly the non-empty category ids that some product has. |

## Left out

- Rendering, routing and UI components. The quantity guards of the input fields are callers' checks, and the stores do not rely on them.
- Persisting the cart to local storage (the `cart-storage` key) and loading it back is I/O. The model starts from the constructor's empty cart.
- The authentication middleware and JWT handling are foreign code. The caller is a `User` parameter, and a missing token is a `None` parameter.
- The `isAdmin` middleware in front of `PUT /:id/status` and `GET /` is not part of this model. `UpdateStatus` models only the route body.
- `GET /`, the administrators' list of all orders, is a plain query with no logic.
- The client's `fetchOrders`, `fetchOrderById` and `cancelOrder` only forward to the routes modelled here.
- Concurrency between `await` points, including the race between the stock check and the decrement. Each request runs to completion before the next begins.
- Floating-point prices, `toFixed` and float sums: all amounts are integers. Quantities that are not whole numbers are not modelled.
- `Date.now()` line ids, database ids and timestamps are parameters. `CreateOrder` requires that the new order id is not already in use, standing for the database's fresh id.
- The human-readable message texts of the error responses. Each error is a constructor with its HTTP status code. The stock error carries the product name and the available stock, as the message does.
- The joined `user`/`product` data of the responses and the `updatedAt` field.
- Database failures other than updating a row that does not exist. Those are the only failures that lead to 500 in the model.
- `Catalog.SortStage`: the stability of `Array.prototype.sort` is not stated. Equal prices or names keep their input order in the model's sort, but no lemma says so.
- `Catalog.LowerChar`: `toLowerCase` is modelled for ASCII letters only. Unicode case mapping is not modelled.
- `Catalog.NameLe`: `localeCompare` is replaced by code-unit lexicographic order, which is a total order on names. Locale collation is not modelled.
