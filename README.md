# ShopMate cart, stock, orders, rate limiting and chat — a Dafny model

ShopMate is a demo storefront built twice: as a monolithic Express
application and as product, cart and order microservices over a key-value
store. This project models the parts that carry the rules:

- **Monolith cart** (`controllers/cartController.js` over `models/product.js`).
  Adding to a cart takes units out of the product's stock. Updating,
  removing and clearing put them back. For every stored product,
  `stock + units in the cart` therefore stays constant. This is proved for
  each handler (`AddConserves`, `UpdateConserves`, `RemoveConserves`,
  `ClearConserves`), together with the cart invariant: at most 50 entries,
  unique product ids, positive quantities. The cap of 99 units per product
  is applied by adding only (`AddMovesUnits`); an update stores whatever
  quantity it is given.
- **Monolith orders** (`controllers/orderController.js`).
  - Checkout refuses an empty cart.
  - Placing an order snapshots each product and its line total, writes the
    order under the clock id, then empties the cart.
  - The confirmation page shows an order only to its owner.
  - Listing and clearing work on the caller's orders on one scan page: at
    most 1000 rows, fewer when the page reaches 1 MB. Orders the page misses
    are neither listed nor cleared.
- **Microservices**:
  - The product model (`services/product-service/models/product.js`).
  - The cart model and its handlers (`services/cart-service/...`). These
    take stock on add but never give it back.
  - The order service (`services/order-service/...`), which has no
    ownership check on reads.
- **Rate limiter** (`shared/middleware/rateLimiter.js`, with the same logic
  in `app.js:7-58`). It is a per-client sliding window. It tracks at most 10000
  keys, evicting the oldest-inserted one. An occasional sweep drops expired
  keys.
- **Application wiring** (`app.js`): the three limiter instances, and the
  session middleware that keeps the first 50 cart entries and the last 100
  orders.
- **Chat assistant** (`routes/ai.js`). It validates the message, lower-cases
  it, and answers from an ordered keyword cascade where the first match
  wins.

## How the model is built

Each handler that reads and writes stores has two parts:

- A pure step function on values (`AddStep`, `PlaceSpec`, `AddSpec`,
  `CreateSpec`, `Admit`, ...), about which the properties are proved as
  lemmas.
- A method of a class holding the tables (`CartController`, `CartStore`,
  `Limiter`, ...). It performs the source's reads and writes in the source's
  order, with its loops where the source loops. It is proved to leave
  exactly the state the step function describes.

Store failures are boolean parameters, where the source has an error path
for them. Clock readings are integer parameters. `Math.random() < 0.05` is
the `sweep` parameter. Prices are integer cents.

Where the monolith and the services differ, or where the code does other
than its messages and comments suggest, the model follows the code:

- The monolith refuses an add to a cart of 50 entries even when the product
  is already in it (`MonolithCart.AddFullCartRefusesExisting`).
- The monolith clamps a request that would exceed 99 units to the remaining
  headroom (`MonolithCart.AddMovesUnits`). The cart service neither clamps
  nor rejects, so an entry can reach 100 units and more
  (`CartModel.AddItemHasNoCap`).
- The cart service never restores stock on update, remove or clear
  (`CartApi.AddThenRemoveLosesUnits`). It writes the stock before the cart,
  so a failing cart write keeps the decrement (`CartApi.AddTakesStockFirst`).
- A failed cart read in the cart service's `addItem` yields `[]`, and the
  write that follows then replaces the stored cart (`CartApi.AddSpec`).
- The product service's `getAllProducts` answers `[]` on a store error
  instead of falling back to sample data. Only the monolith falls back.
- The order service answers `getOrderById` for any caller
  (`OrderService.NoOwnershipCheck`). Only the monolith checks ownership.
- A chat message's length is counted in UTF-16 code units, as JavaScript's
  `length` does.

## Model

| member | source | states |
|---|---|---|
| CartItems.IndexOf | controllers/cartController.js:119 | the index of the first entry for the product, or -1 exactly when no entry has it |
| CartItems.Without | controllers/cartController.js:213 | the result holds exactly the entries of other products, and none of the removed one |
| CartItems.SetQuantity | controllers/cartController.js:172 | only entry `k` changes, to the new quantity with the same product |
| CartItems.QtyAt | controllers/cartController.js:155-158 | in a duplicate-free cart an entry's quantity is all the cart holds of its product |
| CartItems.QtySet | controllers/cartController.js:172 | setting one entry changes only its product's unit count, by the difference |
| CartItems.QtyAppend | controllers/cartController.js:126-129 | appending an entry adds its units to its own product only |
| CartItems.QtyWithout | controllers/cartController.js:213 | filtering a product out drops all its units and keeps every other product's |
| CartItems.UniqueWithout | controllers/cartController.js:165 | filtering keeps product ids unique |
| CartItems.WithoutConcat | services/cart-service/models/cart.js:74 | filtering keeps the remaining entries in order |
| Catalog.SampleFacts | models/product.js:5-46 | the built-in catalogue is five products with ids 1 to 5 in order and non-negative price and stock |
| Catalog.FindConsecutive | models/product.js:88 | on a list whose ids run consecutively from `first`, `find` answers exactly the ids in range, each with the member at its offset |
| Catalog.FindById | models/product.js:85 | `find` returns a member with the id, and nothing exactly when no member has it |
| Catalog.SampleLookup | models/product.js:88 | `find` on the fallback catalogue answers exactly ids 1 to 5, each with the sample at that position |
| Catalog.SampleTable | models/product.js:58 | seeding writes the five samples, each under its own id |
| Catalog.Lookup | models/product.js:82-90 | a stored record wins, otherwise the sample with that id |
| Catalog.MergeStock | models/product.js:97 | a `{stock}` update changes the stock and nothing else |
| Catalog.MergeIdempotent | models/product.js:97 | applying the same update twice equals applying it once |
| Catalog.UpdateSpec | models/product.js:93-106 | the merged record is written exactly when the id is stored and the store works; otherwise nothing changes; no other record changes |
| Catalog.UpdateStock | models/product.js:95-99 | a working `{stock}` update rewrites the stock of a stored product and nothing else, and leaves an absent id absent |
| Catalog.ProductStore.InitializeProducts | models/product.js:49-65 | an empty table gets the sample catalogue, a non-empty one or a failing store is left alone |
| Catalog.ProductStore.GetAllProducts | models/product.js:71-79 | the scanned rows, or the sample catalogue when the table is empty or the scan fails; never empty |
| Catalog.ProductStore.GetProductById | models/product.js:82-90 | the stored record, else (also on a read error) the sample with that id; nothing only for an unknown id outside 1 to 5 |
| Catalog.ProductStore.UpdateProduct | models/product.js:93-106 | the table and report are those of `UpdateSpec` |
| MonolithCart.AddValidation | controllers/cartController.js:73-89 | the id, quantity and cart-size checks reject exactly the requests they name, in order; a missing or zero quantity means 1 |
| MonolithCart.AddRejectionWritesNothing | controllers/cartController.js:76-109 | a rejected add leaves stock and cart unchanged |
| MonolithCart.AddFullCartRefusesExisting | controllers/cartController.js:86-89 | a cart of 50 entries refuses even a product it already holds |
| MonolithCart.AddStockCheck | controllers/cartController.js:91-130 | past the earlier checks the add is refused at the cap exactly when the capped quantity is 0, not found exactly for an unknown product, and refused for stock exactly when the stock is below the capped quantity; it succeeds exactly when all pass, moving the capped quantity that the stock covers |
| MonolithCart.NotInCartChangesNothing | controllers/cartController.js:155-213 | updating or removing a product not in the cart leaves stock and cart unchanged, the update reporting it not in the cart |
| MonolithCart.AddMovesUnits | controllers/cartController.js:91-130 | a successful add moves between 1 and 99 units, the request clamped to what fits under 99, from stock to the cart |
| MonolithCart.AddConserves | controllers/cartController.js:100-133 | stock plus cart units is conserved for every stored product |
| MonolithCart.AddKeepsInvariant | controllers/cartController.js:85-130 | the cart stays duplicate-free, within 50 entries, with positive quantities |
| MonolithCart.UpdateConserves | controllers/cartController.js:147-178 | stock plus cart units is conserved by an update |
| MonolithCart.UpdateSetsQuantity | controllers/cartController.js:155-175 | the product ends with exactly the requested units, or none for a quantity of 0 or less; a product not in the cart is reported |
| MonolithCart.UpdateKeepsInvariant | controllers/cartController.js:157-175 | an update keeps the cart invariant |
| MonolithCart.RemoveConserves | controllers/cartController.js:191-216 | stock plus cart units is conserved by a removal |
| MonolithCart.RemoveKeepsInvariant | controllers/cartController.js:212-213 | removal keeps the invariant and leaves no entry of the product |
| MonolithCart.UpdateToZeroIsRemove | controllers/cartController.js:161-166 | an update to a quantity of 0 or less is the same as a removal |
| MonolithCart.RestoreAllAdds | controllers/cartController.js:237-244 | the clearing loop adds each product's cart units back to its stock and changes nothing else |
| MonolithCart.ClearConserves | controllers/cartController.js:229-247 | clearing conserves stock plus cart units and empties the cart |
| MonolithCart.Walkthrough | controllers/cartController.js:71-216 | stock 50: add 5, set 2, remove, add 50, then add 1 is refused for stock, with the stock at each step |
| MonolithCart.CartTable.Save | controllers/cartController.js:25-35 | the user's record is overwritten, no other |
| MonolithCart.CartViewLines | controllers/cartController.js:49-61 | the page is built exactly when every entry's product resolves, and then line `i` is entry `i`'s product with its quantity and `price * quantity` |
| MonolithCart.CartController.ViewCart | controllers/cartController.js:38-68 | the loop yields the lines `CartView` describes, the sum of their totals, and the entry count |
| MonolithCart.CartController.WriteStock | controllers/cartController.js:113 | a `{stock}` write through the product model sets that product's stock as `Restock` says and changes nothing else |
| MonolithCart.CartController.RestoreEntry | controllers/cartController.js:237-244 | one pass of the clearing loop adds the entry's units back to its product's stock, as `RestoreOne` says |
| MonolithCart.CartController.AddToCart | controllers/cartController.js:71-144 | the outcome, stock and cart are those of `AddStep`; a rejection writes nothing |
| MonolithCart.CartController.TakeUnits | controllers/cartController.js:111-133 | lowers the stock, then re-reads the cart, updates it and saves it, as `AddStep` describes |
| MonolithCart.CartController.UpdateCartItem | controllers/cartController.js:147-188 | the outcome, stock and cart are those of `UpdateStep` |
| MonolithCart.CartController.RemoveFromCart | controllers/cartController.js:191-226 | the stock and cart are those of `RemoveStep` |
| MonolithCart.CartController.ClearCart | controllers/cartController.js:229-257 | the loop restores each entry's units (`ClearStep`) and the cart is saved empty |
| MonolithOrders.Checkout | controllers/orderController.js:57-69 | the checkout page is refused exactly for an empty cart and otherwise shows the entry count |
| MonolithOrders.OrderLinesResolved | controllers/orderController.js:84-100 | order lines are built exactly when every entry's product resolves |
| MonolithOrders.OrderLinesSnapshot | controllers/orderController.js:84-97 | each line is the `{id, name, price}` snapshot of its entry's product, with the quantity and `price * quantity` |
| MonolithOrders.PlaceFailureWritesNothing | controllers/orderController.js:72-131 | an empty cart is refused; any outcome other than a placed order writes neither table |
| MonolithOrders.PlacedOrder | controllers/orderController.js:83-122 | a placed order has the clock id, the caller, status Confirmed, one snapshot line per entry and their sum; the cart empties; nothing else changes |
| MonolithOrders.OrderConfirmation | controllers/orderController.js:134-162 | an order is shown exactly to its owner; a missing or foreign order is not found; a read error is a failure |
| MonolithOrders.Owned | controllers/orderController.js:40-46 | the filter keeps exactly the caller's rows; the order service's `getOrdersByUserId` uses the same filter |
| MonolithOrders.ViewOrdersOwned | controllers/orderController.js:38-53 | on any scan page of at most 1000 rows (fewer at 1 MB) the list holds exactly the caller's orders on the page, all stored; none on a scan error; every order of the caller when the page holds the whole table |
| MonolithOrders.ClearKeepsOthers | controllers/orderController.js:187-197 | clearing deletes no other user's order, alters no kept order, and deletes nothing on a scan error |
| MonolithOrders.ClearRemovesOwn | controllers/orderController.js:187-196 | on any scan page a caller's order survives clearing exactly when the page missed it; when the page holds the whole table none is left |
| MonolithOrders.OrderController.BuildLines | controllers/orderController.js:84-100 | the loop yields the lines `OrderLines` describes, or none when a product is missing, and the sum of their totals |
| MonolithOrders.OrderController.PlaceOrder | controllers/orderController.js:72-131 | the result and both tables are those of `PlaceSpec`; stock is untouched |
| MonolithOrders.OrderController.ClearOrders | controllers/orderController.js:187-207 | the delete loop leaves the table `ClearedOrders` describes |
| ProductService.SeedProducts | services/product-service/models/product.js:12-18 | the five seed products with ids 1 to 5, their prices and stock, stamped with the creation time |
| ProductService.PutAllDistinct | services/product-service/models/product.js:20-22 | putting rows with distinct ids stores exactly those rows under their ids |
| ProductService.SeedContents | services/product-service/models/product.js:4-27 | an empty table is seeded with ids 1 to 5, or 1 to k when the put at index k fails; a non-empty table or failed scan is left alone |
| ProductService.ProductTable.GetAllProducts | services/product-service/models/product.js:29-37 | every stored record exactly once, each as stored; none on a store error or a scan without items |
| ProductService.NewProduct | services/product-service/models/product.js:48-55 | a created product has the clock id unless the data carries one, the data's fields, and a creation stamp |
| ProductService.UpdateAsWrittenAlwaysFails | services/product-service/models/product.js:62-75 | as written, every stock update is rejected by the store and changes nothing |
| ProductService.UpdateSetsStockOnly | services/product-service/models/product.js:62-75 | with `#stock` defined, an update sets exactly `stock` and `updatedAt` of that record, creating a bare record for an absent id, and leaves the rest as it was |
| ProductService.ProductTable.GetProductById | services/product-service/models/product.js:39-46 | the stored record, or nothing when absent or on a read error |
| ProductService.ProductTable.InitializeProducts | services/product-service/models/product.js:4-27 | the put loop leaves the table `Seeded` describes |
| ProductService.ProductTable.CreateProduct | services/product-service/models/product.js:48-60 | a successful create stores and returns `NewProduct`; a failed write changes nothing |
| ProductService.ProductTable.UpdateProduct | services/product-service/models/product.js:62-75 | the table and report are those of the corrected update |
| CartModel.AddItemEffect | services/cart-service/models/cart.js:28-49 | refused exactly at 50 or more entries, even for a product in the cart; otherwise the product gains exactly the units and no other product changes |
| CartModel.AddItemKeepsUnique | services/cart-service/models/cart.js:36-42 | adding keeps product ids unique |
| CartModel.AddItemHasNoCap | services/cart-service/models/cart.js:38-39 | no per-item cap: an entry of 99 plus 1 becomes 100 |
| CartModel.UpdateItemEffect | services/cart-service/models/cart.js:55-62 | a quantity of 0 or less filters the product out; otherwise the first entry is set, or nothing changes when absent |
| CartModel.UpdateItemQuantity | services/cart-service/models/cart.js:51-64 | with unique ids the product ends with exactly the requested units (none for 0 or less), others unchanged |
| CartModel.CartStore.GetCart | services/cart-service/models/cart.js:4-12 | the stored items, or none for a missing record or a read error |
| CartModel.CartStore.SaveCart | services/cart-service/models/cart.js:14-26 | stores and returns the items; a failed write changes nothing |
| CartModel.CartStore.AddItem | services/cart-service/models/cart.js:28-49 | reads, applies `AddItemSpec` and saves; a full cart or failed write changes nothing |
| CartModel.CartStore.UpdateItem | services/cart-service/models/cart.js:51-69 | reads, applies `UpdateItemSpec` and saves |
| CartModel.CartStore.RemoveItem | services/cart-service/models/cart.js:71-80 | reads, filters the product out and saves |
| CartModel.CartStore.ClearCart | services/cart-service/models/cart.js:82-89 | saves an empty cart |
| CartApi.Resolvable | services/cart-service/controllers/cartController.js:12-28 | the page keeps exactly the entries whose product fetch succeeds |
| CartApi.ResolvableAll | services/cart-service/controllers/cartController.js:21-28 | when every product resolves no entry is dropped |
| CartApi.ViewTotalDefined | services/cart-service/controllers/cartController.js:29 | the total is a number exactly when every line total is |
| CartApi.GetCartView | services/cart-service/controllers/cartController.js:6-31 | one line per resolvable entry with its quantity and line total; the count is the number of lines |
| CartApi.AddChecks | services/cart-service/controllers/cartController.js:41-53 | 400 exactly for a missing id or a quantity outside 1 to 99 (missing means 1), 404 exactly for an unknown product, and no write on any refusal |
| CartApi.AddTakesStockFirst | services/cart-service/controllers/cartController.js:55-61 | the stock decrement is written first and stays when the cart is full or its write fails; on success the cart gains the units the stock lost |
| CartApi.AddThenRemoveLosesUnits | services/cart-service/controllers/cartController.js:38-94 | after an add and a removal the stock stays lowered and the cart holds none of the product |
| CartApi.CartService.AddToCart | services/cart-service/controllers/cartController.js:38-70 | the response and both tables are those of `AddSpec` |
| CartApi.CartService.UpdateCartItem | services/cart-service/controllers/cartController.js:72-83 | the cart is updated as `UpdateItemSpec` says; stock never changes |
| CartApi.CartService.RemoveFromCart | services/cart-service/controllers/cartController.js:85-94 | the product is filtered out of the cart; stock never changes |
| CartApi.CartService.ClearCart | services/cart-service/controllers/cartController.js:96-105 | the cart is saved empty; stock never changes |
| OrderService.BuildOrder | services/order-service/models/order.js:6-11 | the clock id unless the data carries one, the data's fields, the creation time, and status Confirmed whatever the data says |
| OrderService.OrderItems | services/order-service/controllers/orderController.js:23-31 | one order item per cart page line, in order |
| OrderService.CreateRefusals | services/order-service/controllers/orderController.js:12-17 | an order is refused as empty exactly when no cart entry resolves, with no write; a failed order write writes nothing |
| OrderService.CreatedOrder | services/order-service/controllers/orderController.js:19-40 | a created order belongs to the caller, is confirmed and has the clock id; item `i` snapshots page line `i`'s product id, name and price (none for a bare record), quantity and line total; the total is the page's; the cart is emptied; a failed clear keeps the stored order and the cart |
| OrderService.GetOrderResponse | services/order-service/controllers/orderController.js:50-61 | the stored order for any caller, 404 when absent or on a read error |
| OrderService.NoOwnershipCheck | services/order-service/controllers/orderController.js:50-56 | another user's order is returned, where the monolith answers not found |
| OrderService.OrderStore.GetOrdersByUserId | services/order-service/models/order.js:28-44 | exactly the caller's stored orders; none on a scan error |
| OrderService.OrderStore.CreateOrder | services/order-service/models/order.js:4-17 | a successful write stores and returns `BuildOrder`; a failed one changes nothing |
| OrderService.OrderApi.CreateOrder | services/order-service/controllers/orderController.js:7-48 | the response and both tables are those of `CreateSpec`; stock is untouched |
| RateLimiter.InWindow | shared/middleware/rateLimiter.js:21 | the filter keeps exactly the timestamps after the window start |
| RateLimiter.InWindowIdempotent | shared/middleware/rateLimiter.js:33 | filtering filtered timestamps again changes nothing |
| RateLimiter.InWindowExpired | shared/middleware/rateLimiter.js:21 | timestamps all at or before the window start filter to nothing |
| RateLimiter.Track | shared/middleware/rateLimiter.js:16-18 | the key is tracked afterwards |
| RateLimiter.EvictKeepsWellFormed | shared/middleware/rateLimiter.js:11-14 | evicting the oldest key keeps each tracked key listed once in insertion order |
| RateLimiter.TrackKeepsBound | shared/middleware/rateLimiter.js:11-18 | making room and tracking keep at most 10000 keys, and a new key at capacity evicts the oldest |
| RateLimiter.SweepKeyEffect | shared/middleware/rateLimiter.js:33-39 | one sweep step drops an expired key or prunes it to its live timestamps, touching no other key |
| RateLimiter.SweepAllEffect | shared/middleware/rateLimiter.js:32-40 | the sweep loop drops exactly the keys with no live timestamp, prunes the others, and keeps the table well formed |
| RateLimiter.SweepLeavesOnlyLive | shared/middleware/rateLimiter.js:30-45 | after a sweep every tracked key has a live timestamp and holds only live ones; a key is kept exactly when it had one, and none is added |
| RateLimiter.RecordKeepsWellFormed | shared/middleware/rateLimiter.js:27-28 | storing a new timestamp list for a tracked key keeps the table well formed and every listed key tracked |
| RateLimiter.DecideKeepsBound | shared/middleware/rateLimiter.js:20-45 | recording and sweeping keep the table well formed and never add a key; without a sweep the keys stay the same |
| RateLimiter.AdmitKeepsBound | shared/middleware/rateLimiter.js:11-45 | a request keeps the table well formed and within 10000 keys; a new key at capacity evicts the oldest, with or without a sweep |
| RateLimiter.AdmitDecision | shared/middleware/rateLimiter.js:20-28 | admitted exactly when fewer than `max` timestamps are in the window; a refusal leaves the key's list alone; an admission without a sweep stores the live ones plus `now` |
| RateLimiter.SweepKeepsLiveKey | shared/middleware/rateLimiter.js:32-40 | a sweep keeps a key whose non-empty list is all live, unchanged |
| RateLimiter.DecideKeepsAdmitted | shared/middleware/rateLimiter.js:20-45 | with a positive window an admitted key holds its live timestamps plus `now`, with or without the sweep |
| RateLimiter.AdmittedListSurvivesSweep | shared/middleware/rateLimiter.js:6-48 | with a positive window an admitted request's key holds its live timestamps plus `now`, at most `max`, even when the sweep runs |
| RateLimiter.ExpiredKeyAdmitted | shared/middleware/rateLimiter.js:20-28 | once all of a key's timestamps have expired its next request is admitted |
| RateLimiter.InWindowAllLive | shared/middleware/rateLimiter.js:21 | live timestamps survive the filter unchanged |
| RateLimiter.SingleStep | shared/middleware/rateLimiter.js:20-28 | a key with `k` timestamps at `now` is admitted again exactly when `k < max` |
| RateLimiter.BurstFromEmpty | shared/middleware/rateLimiter.js:6-48 | a fresh limiter admits exactly the first `max` of a burst at one instant |
| RateLimiter.Limiter.SweepKeys | shared/middleware/rateLimiter.js:32-40 | the loop over the tracked keys leaves the table `SweepAll` describes |
| RateLimiter.Limiter.Request | shared/middleware/rateLimiter.js:6-48 | the verdict and new table are those of `Admit`; the table stays well formed within 10000 keys |
| App.BurstAdmitsMax | app.js:7-58 | a burst of `max + extra` at one instant against a fresh limiter is `max` admissions then `extra` refusals |
| App.OrderLimit | app.js:148 | the order limiter admits 10 simultaneous requests and refuses the 11th |
| App.GeneralLimit | app.js:149 | the general limiter admits 100 and refuses the 101st |
| App.StressLimit | app.js:168 | the stress limiter admits 50 per minute and refuses the 51st |
| App.OrderLimitRecovers | app.js:148 | an order client is admitted again once 15 minutes have passed since its last admitted request |
| App.KeepFirst | app.js:127-129 | a prefix of length min(length, 50) |
| App.KeepLast | app.js:130-132 | the last min(length, 100) entries, in order |
| App.NormalizedBounds | app.js:118-135 | missing lists become empty, short ones are kept, long ones cut to the first 50 or last 100, and repeating the middleware changes nothing |
| App.Session.Normalize | app.js:118-135 | the session fields become those `Normalized` describes |
| Chat.RulesRanked | routes/ai.js:21-96 | the 22 rules stand in source order, each reply at its own rank, so no two rules share a reply |
| Chat.OccursContains | routes/ai.js:21 | a keyword occurring at some index is found by `includes` |
| Chat.ContainsOccurs | routes/ai.js:21 | a keyword found by `includes` occurs at some index |
| Chat.ContainsAt | routes/ai.js:21 | `includes` holds exactly when the keyword occurs at some index |
| Chat.ContainsTransitive | routes/ai.js:29-33 | a message containing a word contains every substring of that word |
| Chat.AnyIn | routes/ai.js:21 | a rule fires exactly when one of its keywords occurs |
| Chat.FirstMatchAt | routes/ai.js:21-96 | the first rule that fires decides the reply |
| Chat.FirstMatchFallback | routes/ai.js:21-101 | the default reply exactly when no rule fires, else some rule that fires with none before it |
| Chat.RankInjective | routes/ai.js:21-101 | no two replies share a rank |
| Chat.RankedFirstMatch | routes/ai.js:21-101 | for any rule list holding each reply at its own rank, the first match is `r` exactly when `r`'s rule fires and no earlier one does, or `r` is the default and none fires |
| Chat.ClassifyIff | routes/ai.js:18-101 | the reply is `r` exactly when `r`'s rule fires and no earlier one does, or `r` is the default and no rule fires |
| Chat.PhoneInside | routes/ai.js:29-33 | "headphone" and "earphone" both contain "phone" |
| Chat.PhoneDecidesEarly | routes/ai.js:21-35 | a message containing "phone" is answered by the tablet, laptop or phone rule, which stand before the audio rule |
| Chat.HeadphonesAnsweredAsPhones | routes/ai.js:29-35 | a message with "headphone" or "earphone" gets the tablet, laptop or phone reply, never the audio one |
| Chat.ToLower | routes/ai.js:18 | lower-casing keeps the length |
| Chat.ToLowerIdempotent | routes/ai.js:18 | lower-casing twice equals lower-casing once |
| Chat.Utf16Length | routes/ai.js:14 | the length in code units is between one and two per character |
| Chat.ToLowerKeepsLength | routes/ai.js:14-18 | lower-casing keeps the length in code units |
| Chat.RespondValidation | routes/ai.js:10-16 | a missing, non-string or empty message is malformed; over 1000 code units is too long; every other message is answered |
| Chat.RespondIgnoresCase | routes/ai.js:18 | messages equal after lower-casing get the same response |
| Chat.RespondToLower | routes/ai.js:18 | a message and its lower-cased form get the same response |
| Chat.Recommendations | routes/ai.js:113-118 | three suggestions with ids 1 to 3 |
| Chat.RecommendationsIgnoreProduct | routes/ai.js:109-120 | the list is the same for every product id |

## Findings

| source | as written | input that shows it | evidently intended | confidence | as-written member | corrected member |
|---|---|---|---|---|---|---|
| services/product-service/models/product.js:64-70 | the update expression uses the name placeholder `#stock`, but no `ExpressionAttributeNames` is passed, so the store rejects the request | any call, e.g. `updateProduct(1, {stock: 9})` | set the `stock` attribute (`#stock` defined as `stock`) and `updatedAt` | high that the store rejects it (not executed) | ProductService.UpdateAsWrittenAlwaysFails | ProductService.UpdateSetsStockOnly |

The rest of the model uses the corrected update (`ProductService.UpdateSpec`).
This includes the cart service's add-to-cart flow.

## Left out

- HTTP between services. The cart and order services call the product and
  cart models directly. The product service's routes are not part of this
  model; a `GET` for an unknown product is taken to answer 404.
- Concurrency. Each request runs alone. Interleaved read-modify-write cycles
  and lost updates are not modelled.
- Floating point. Prices and line totals are integer cents. The cart
  service's `NaN` line total (a record without a price) is `None`.
- Clocks, identifiers and randomness are parameters: `Date.now()`,
  ISO-8601 date strings, uuid session ids and `Math.random()`.
- Session identity and rendering. The user id is a parameter. Pages and
  redirects are outcome values, not HTML or messages. The controllers'
  copies of the cart into `req.session.cart` are not modelled.
- Logging, the timeout and error middleware, `/health`, `/stress` (a CPU
  loop), body-size limits and session cookies.
- Store errors in the monolith cart controller. `getCartFromDB` and
  `saveCartToDB` swallow them and a failing `updateProduct` redirects. These
  paths are not modelled.
- Monolith `placeOrder`: a cart entry whose product is unknown throws
  outside the `try`, so the request is never answered. The model reports
  `ProductMissing` with nothing written.
- Monolith `viewCart`: a cart entry whose product is unknown makes
  `product.price` throw, so the request is never answered. The model
  returns no page (`CartView` is `None`).
- Monolith `clearOrders`: a delete failing part-way through the loop is not
  modelled.
- MonolithCart.UpdateStep: a non-numeric quantity is not modelled.
  `parseInt` yields `NaN`, which the source would store as stock and
  quantity; the model's quantity is an integer.
- MonolithCart.AddStep: a non-numeric product id (`NaN`) is taken as an id
  of 0 or less, matching no cart entry. `addToCart` refuses it.
  `updateCartItem` reports it as not in the cart and `removeFromCart` leaves
  stock and cart as they were (`MonolithCart.NotInCartChangesNothing`).
- CartModel.UpdateItemSpec: the cart service passes the request's
  `quantity` through unparsed
  (`services/cart-service/controllers/cartController.js:75-77`). A string or
  a missing quantity would be stored as it is; the model's quantity is an
  integer.
- Catalog.SampleFacts: the sample descriptions are shortened. Ids, names,
  prices, images and stock match the source.
- ProductService.SeedProducts: one creation time stamps all five records.
  The source reads the clock once per put.
- ProductService.ProductTable.GetAllProducts: a scan without pagination
  returns one page of at most 1 MB. The contract assumes the whole table
  fits in that page; on a larger table the source returns only the first
  page.
- OrderService.OrderStore.GetOrdersByUserId: the same single-page
  assumption. "Exactly the caller's orders" holds only while the whole
  orders table fits in one 1 MB page.
- MonolithOrders.PlaceSpec: two store errors of the monolith order
  controller are not modelled. `getCartFromDB` turns a read error into an
  empty cart (`controllers/orderController.js:14-21`), so checkout and
  `placeOrder` then refuse an empty cart. `Product.getProductById` answers a
  read error with the sample record, so the snapshot would carry the
  sample's name and price. `PlaceSpec` has no parameter for either error.
- The DynamoDB helpers are modelled only as maps with `get`, `put` and
  `delete`, and scans. The monolith's `utils/dynamodb.js` gives a scan a
  default `Limit` of 1000 rows. The shared helpers in
  `shared/utils/dynamodb.js` set no limit. `batchWrite`'s 25-item limit is
  not reached by the five samples.
- Chat.ToLower: only ASCII letters are lower-cased. JavaScript also maps
  other letters, for example the Kelvin sign to `k`, which could make a
  keyword match that the model misses.
- Chat.Utf16Length: Dafny strings hold Unicode scalar values. A JavaScript
  string with a lone surrogate has no counterpart.
- The chat route's 500 path (an exception while answering) cannot occur in
  the model.
- The browser scripts and the frontend service are not part of this model.
