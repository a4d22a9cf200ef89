# Storefront cart, order and catalog-cache model

A Dafny model of the cart, order, catalog and upload handlers of a storefront backend (an Express/Mongoose
API with a Redis read cache). The backend has three collections, products,
carts and orders, plus a key-value cache. Here they are one immutable
`State` record:

- products: id → name, description, price, stock, category;
- carts: user → list of (product id, quantity);
- orders: a list, in creation order;
- cache: key → cached body.

Each controller handler becomes a pure function from `(state, request)` to
`(response, state')`.

Modules, following the source files:

| module | file | models |
|---|---|---|
| `Text` | text.dfy | ASCII lower-casing, shared by the upload filter and the id cast |
| `Seqs` | seqs.dfy | order-preserving filter and reversal |
| `Shop` | shop.dfy | the state, entities, errors (with HTTP status), responses, and the store's cast of request text to a product id |
| `Cart` | cart.dfy | `getCart`, `addToCart`, `removeFromCart`, `clearCart` |
| `Orders` | orders.dfy | `placeOrder`, `getMyOrders`, `getAllOrders` |
| `Catalog` | catalog.dfy | `getProducts`, `getProductById`, `updateProduct`, `deleteProduct`, cache keys and invalidation |
| `Upload` | upload.dfy | the upload `fileFilter` and the `path.extname` it relies on |
| `Api` | api.dfy | a request dispatcher, the invariants request sequences keep, the oversell that two spellings of an id allow, cache staleness after an order, a purchase scenario |

Modelling conventions:

- Prices are integers (cents).
- A missing `productId` is the empty string, since absent, null and `""` are all falsy.
- An absent or non-numeric `quantity`, `page` or `limit` is `None`.
- Product ids are 24 hexadecimal digits. The store keeps and prints them in lower case (`Shop.IsCanonicalId`).
- Request ids are text as received. `Shop.CastId` is the store's cast of that text: any spelling of 24 hexadecimal digits, in either case, names the lower-case id, and any other text makes the store throw.
- The cache key is a structured value. `ListingKey` stands for the `products:` namespace and is keyed by the whole query shape. `ProductKey(text)` stands for `product:<text>`, built from the request text.
- The document store's listing engine (sort, skip, limit, regex search and count) is a parameter, `Catalog.Engine`.
- The order timestamp is a logical clock: the number of orders that existed before the order.

How the code behaves, where it matters to the properties:

- Order placement checks every line against the stock read at the start, then lowers stocks line by line. Nothing is reserved and nothing is rolled back. Two lines for one product can therefore drive its stock negative (`Api.TwoLinesOrderOversells`).
- A cart line whose product was deleted makes order placement read the stock of a null product. The handler then answers 500, before any change (`Orders.LineError`).
- Order placement never touches the cache, so a cached `product:<id>` entry keeps the old stock (`Api.OrderLeavesProductEntryStale`).
- The store finds a product through any spelling of its id. The add handler, though, matches the existing cart line by comparing each stored id with the request text. The remove handler and the product cache keys also use the text as received.
  - Adding through an upper-case spelling of an id already in the cart appends a second line (`Cart.OtherSpellingAddsSecondLine`). An order then oversells (`Api.MixedCaseOversell`).
  - A product read through two spellings is cached twice. An update or delete through one spelling leaves the other entry in place (`Catalog.UpdateLeavesOtherSpellingStale`, `Catalog.DeleteLeavesOtherSpellingCached`).
- A listing whose skip `(page − 1) × limit` is negative is rejected by the store. The handler answers 500 and caches nothing.

## Model

| member | source | states |
|---|---|---|
| `Seqs.Filter` | src/controllers/cartController.js:18 | the kept elements are exactly those satisfying the predicate, with their multiplicities |
| `Shop.CastId` | src/controllers/cartController.js:49 | text is accepted exactly when it is 24 hexadecimal digits, and then names the lower-case id, which is canonical |
| `Shop.CastIdCanonical` | src/controllers/cartController.js:66-72 | an id as the store prints it casts to itself |
| `Shop.CastIdSameIff` | src/controllers/cartController.js:49 | two accepted spellings name the same product exactly when they are equal ignoring case |
| `Seqs.FilterConcat` | src/controllers/cartController.js:18 | filtering distributes over concatenation, so survivors keep their relative order |
| `Cart.GetCart` | src/controllers/cartController.js:5-28 | with no cart, the view is `[]`/0/0 and no cart is created; otherwise exactly the lines of live products remain and are saved, `totalItems` is their quantity sum and `totalPrice` equals the live price total of the unpruned cart |
| `Cart.GetCartIdempotent` | src/controllers/cartController.js:18-19 | a second read prunes nothing more and gives the same view and state |
| `Cart.PruneInOrder` | src/controllers/cartController.js:18 | pruning a cart `a + b` prunes each part in place, so the remaining lines keep their order |
| `Cart.PruneKeepsTotalPrice` | src/controllers/cartController.js:22-26 | dropping dead lines leaves the price total unchanged, since a missing product counts as price 0 |
| `Cart.CartTotals` | src/controllers/cartController.js:22-26 | the left-to-right reduce loops compute the quantity sum and the sum of live price × quantity |
| `Cart.AddedQuantity` | src/controllers/cartController.js:40-47 | the added quantity is at least 1: a given quantity ≥ 1 is used, an absent, non-numeric, zero or negative one becomes 1 |
| `Cart.FindLine` | src/controllers/cartController.js:55 | finds the first line for the product, or reports that there is none |
| `Cart.AddToCart` | src/controllers/cartController.js:38-84 | a missing id gives 400, an id the store cannot cast 500 and an unknown product 404; it fails with 400 "only N available" exactly when stock < quantity of the line matching the text + added quantity; every failure leaves the state unchanged; a success changes only this user's cart |
| `Cart.AddToCartEffect` | src/controllers/cartController.js:55-75 | a successful add either grows the first line whose stored id equals the request text or appends one line for the cast id, creating the cart if needed; that line then holds at most the stock; other lines are unchanged; the item total and the touched id's quantity grow by exactly the added quantity |
| `Cart.AddToCartKeepsLinesValid` | src/controllers/cartController.js:63-75 | whatever the spelling of the id, every stored line keeps a canonical id and a quantity ≥ 1 |
| `Cart.AddToCartKeepsNoDuplicates` | src/controllers/cartController.js:55-75 | adding through the id as the store prints it never creates a second line for a product |
| `Cart.OtherSpellingAddsSecondLine` | src/controllers/cartController.js:49-72 | adding through another spelling of an id the cart holds finds no line, checks the stock against the added quantity alone, and on success appends a second line for the same product |
| `Cart.RemoveFromCart` | src/controllers/cartController.js:88-106 | a missing id gives 400 and a missing cart 404; otherwise exactly the lines whose stored id equals the request text are dropped and saved (removing an absent product succeeds), and the item total drops by their quantity |
| `Cart.RemoveInOrder` | src/controllers/cartController.js:98 | removing from a cart `a + b` removes from each part in place, so the kept lines keep their order |
| `Cart.RemoveAbsentKeepsCart` | src/controllers/cartController.js:98-99 | removing a product the cart has no line for saves the cart exactly as it was |
| `Cart.RemoveFromCartIdempotent` | src/controllers/cartController.js:98-99 | removing the same product twice equals removing it once |
| `Cart.ClearCart` | src/controllers/cartController.js:110-120 | a missing cart gives 404; otherwise that cart becomes empty and nothing else changes |
| `Orders.FirstUnorderable` | src/controllers/orderController.js:19-24 | the check loop stops at the first line whose product is missing or short of stock; every earlier line passes |
| `Orders.Snapshot` | src/controllers/orderController.js:26-30 | each order item copies the line's product and quantity and the product's current price, in cart order |
| `Orders.SnapshotTotal` | src/controllers/orderController.js:16-32 | the order total, the sum of priceAtPurchase × quantity, equals the cart's live price total |
| `Orders.Decrement` | src/controllers/orderController.js:35-40 | the decrement loop lowers each product's stock by exactly the quantity the cart requests of it; no other field or product changes |
| `Orders.PlaceOrder` | src/controllers/orderController.js:6-55 | no cart or an empty cart gives 400 "Cart is empty"; it succeeds exactly when every line passes the check; the first failing line's error is returned and nothing changes: 400 "Not enough stock for <name>" for a short product, 500 for a line whose product was deleted (reading the stock of the null product throws); on success, one order {user, items at purchase price, total} is appended, stocks drop by the requested quantities, the cart is emptied and the cache is untouched |
| `Orders.PlaceOrderKeepsStockNonNegative` | src/controllers/orderController.js:19-40 | with a cart without duplicate lines, non-negative stocks stay non-negative after an order |
| `Orders.GetMyOrders` | src/controllers/orderController.js:63-69 | returns exactly the caller's orders, with multiplicities, newest first when the log is chronological |
| `Orders.GetAllOrders` | src/controllers/orderController.js:78-85 | returns every order, newest first when the log is chronological |
| `Catalog.OrDefault` | src/controllers/productController.js:72-74 | page defaults to 1 and limit to 10 when the parameter is absent, non-numeric or zero; other values, negative ones included, are kept |
| `Catalog.ListingCacheKey` | src/controllers/productController.js:77-85 | the listing key is always in the `products:` namespace |
| `Catalog.ListingKeySound` | src/controllers/productController.js:77-127 | two requests with the same key send the same store query and compute the same listing body, so the key captures every parameter the query uses |
| `Catalog.FilterMatchesRequest` | src/controllers/productController.js:95-107 | the filter enforces category equality only for a truthy category, a lower bound only when minPrice is given, an upper bound only when maxPrice is given, and the name search only for a truthy search |
| `Catalog.SelectSort` | src/controllers/productController.js:109-112 | `price_asc`, `price_desc` and `oldest` select their orders; any other value, or none, selects newest first |
| `Catalog.CeilDiv` | src/controllers/productController.js:125 | `Math.ceil(total / limit)`: the least page count whose pages cover the total, for either sign of limit |
| `Catalog.BuildQuery` | src/controllers/productController.js:114-117 | the store query uses skip = (page − 1) × limit, the normalised limit, the built filter and the selected sort |
| `Catalog.ComputeListing` | src/controllers/productController.js:114-127 | the body carries the store's count and page, the normalised page and limit, and `Math.ceil(total / limit)` as totalPages: (totalPages − 1) × limit < total ≤ totalPages × limit for a positive limit, and the mirrored bounds for a negative one |
| `Catalog.GetProducts` | src/controllers/productController.js:69-137 | a key hit returns the stored body flagged as cached, with no store query and no state change; a miss with a negative skip gives 500 and caches nothing; any other miss returns exactly the listing computed from the store and stores it under the key |
| `Catalog.ListingReadThrough` | src/controllers/productController.js:87-131 | after a miss that sent a page, the same request is a hit returning that page; after a miss that failed, it fails again |
| `Catalog.GetProductById` | src/controllers/productController.js:143-175 | uses key `product:<text>` from the text as received; a hit returns the cached value; on a miss, uncastable text gives 500 and an unknown id 404, caching nothing; a known product is cached under that key and returned |
| `Catalog.ProductReadThrough` | src/controllers/productController.js:148-167 | after a miss on a known id, the next read through the same text is a hit on the product read from the store |
| `Catalog.SpellingsCachedApart` | src/controllers/productController.js:148-167 | reading one product through two spellings of its id stores two entries, each holding the product |
| `Catalog.Invalidate` | src/controllers/productController.js:219-222 | removes `product:<text>` and every `products:` key; every other product entry, including other spellings of the same id, keeps its value |
| `Catalog.ApplyPatch` | src/controllers/productController.js:191-196 | name, description, price and category are overwritten only by truthy values, so price 0 cannot be set; stock is overwritten whenever given, 0 included; nothing else changes |
| `Catalog.ApplyPatchIdempotent` | src/controllers/productController.js:191-196 | applying the same update twice equals applying it once |
| `Catalog.UpdateProduct` | src/controllers/productController.js:179-232 | uncastable text gives 500 and an unknown id 404, changing nothing; otherwise the patched product is saved under the cast id and the cache invalidated for the text as received; carts and orders are untouched |
| `Catalog.DeleteProduct` | src/controllers/productController.js:236-266 | uncastable text gives 500 and an unknown id 404, changing nothing; otherwise exactly the product with the cast id is removed and the cache invalidated for the text as received; carts keep their lines and orders are untouched |
| `Catalog.UpdateThenReadIsFresh` | src/controllers/productController.js:217-222 | after an update, reading through the same text misses the cache and returns the new document, and every listing is recomputed from the store |
| `Catalog.DeleteThenReadIsGone` | src/controllers/productController.js:252-257 | after a delete, reading through the same text gives 404 and every listing is recomputed from the store |
| `Catalog.UpdateLeavesOtherSpellingStale` | src/controllers/productController.js:184-222 | an update through one spelling leaves the entry cached under another spelling, which is still served and no longer matches a changed product |
| `Catalog.DeleteLeavesOtherSpellingCached` | src/controllers/productController.js:240-257 | a delete through one spelling leaves the entry cached under another spelling, so the deleted product is still served |
| `Upload.ExtName` | src/utils/multer.js:8 | the extension is empty exactly when the base name is `..` or has no dot after its first character; otherwise it runs from the base name's last dot to its end |
| `Text.ToLower` | src/utils/multer.js:8 | lower-cases every letter position-wise |
| `Text.ToLowerEqualIff` | src/utils/multer.js:8-9 | two strings lower-case to the same string exactly when they are equal ignoring case |
| `Upload.FileFilter` | src/utils/multer.js:7-13 | exactly one callback: accepted with no error exactly when the lower-cased extension is `.jpg`, `.jpeg` or `.png`; otherwise the error and false |
| `Upload.FileFilterIgnoresCase` | src/utils/multer.js:8-9 | acceptance is equality with one of the three extensions, letter case ignored |
| `Upload.NoExtensionRejected` | src/utils/multer.js:9-11 | a name with no extension is rejected with the error |
| `Upload.UpperCaseJpgAccepted` | src/utils/multer.js:8-12 | `photo.JPG` is accepted |
| `Upload.DotFileRejected` | src/utils/multer.js:8-11 | `.png` (a dot file) has no extension and is rejected |
| `Upload.LastExtensionCounts` | src/utils/multer.js:8-11 | `photo.png.exe` is rejected: only the last extension counts |
| `Api.StepKeepsWellFormed` | src/controllers/cartController.js:18-117 | every handler, whatever the request, keeps every cart line's id canonical with quantity ≥ 1, the order log chronological, and listing keys holding listing bodies |
| `Api.StepKeepsUniqueCarts` | src/controllers/cartController.js:55-98 | carts stay free of duplicate lines under any request that does not add through another spelling of an id |
| `Api.StepKeepsStockNonNegative` | src/controllers/orderController.js:19-40 | from carts without duplicate lines, no handler drives a stock negative, given updates that set only non-negative stock |
| `Api.RunKeepsWellFormed` | src/controllers/cartController.js:18-117 | any sequence of requests keeps the state well formed |
| `Api.RunKeepsStockNonNegative` | src/controllers/orderController.js:19-40 | a sequence of requests that adds through printed ids only and sets only non-negative stock keeps carts free of duplicates and stock non-negative |
| `Api.MixedCaseOversell` | src/controllers/cartController.js:49-72 | from a valid state with stock 3, adding 2 through the printed id, 2 through another spelling, and ordering drives the stock to -1 |
| `Api.TwoLinesOrderOversells` | src/controllers/orderController.js:19-40 | for any id, two cart lines of 2 against a stock of 3 both pass the per-line check and the order drives the stock to -1 |
| `Api.ShoutedSpellingCasts` | src/controllers/cartController.js:49 | an upper-case spelling of a printed id is a different text that names the same product |
| `Api.OrderListingsNewestFirst` | src/controllers/orderController.js:65-83 | in a well-formed state both order listings are strictly newest first |
| `Api.OrderLeavesProductEntryStale` | src/controllers/orderController.js:35-50 | a `product:<id>` entry that was current before an order still holds the old stock afterwards, and a read returns it |
| `Api.PurchaseScenario` | src/controllers/orderController.js:6-55 | for any printed id: stock 3, add 2, order gives one order of 2 at the current price, stock 1 and an empty cart; a later price change leaves the order unchanged |

## Left out

- `createProduct` is not modelled. Its only path needs an uploaded image, which is an upload to an image host (foreign I/O). It also invalidates no cache entry, so listings can miss a new product until their TTL runs out.
- The image-host upload and destroy calls in `updateProduct` and `deleteProduct` are foreign I/O.
- Concurrency is not modelled. Every handler is one atomic step. The source's read-modify-write stock update has no rollback and can oversell under concurrent orders. The model claims nothing about that.
- Cache client setup, TTL expiry (60 s and 600 s) and the exact JSON text of keys are not modelled.
- Cache errors are not modelled. A failed cache read, or a failed cache write in the single-product read, update or delete, makes the handler answer 500. The listing write runs after the 200 response was sent, so a failure there changes nothing the client sees.
- Database engine details are not modelled: `populate`, the sort/skip/limit engine and the regular-expression name search. The engine is a parameter. The one store rule modelled is that a negative skip is rejected.
- `Shop.CastId`: the 12-character string form that some versions of the id library also accept is not modelled. Such text counts as uncastable.
- JavaScript numeric coercion is not modelled: fractional quantities and prices, `parseInt` of strings such as `"2abc"`, and non-numeric price bounds.
- `Catalog.ApplyPatch`: a JSON `null` stock passes the `stock !== undefined` test and overwrites the stock with null. `Option<int>` cannot express that, so the model has no such update. In a multipart update body every field is text, so `"0"` is truthy there; the model uses JSON-typed numbers.
- `Api.RunKeepsStockNonNegative`: holds only for request sequences that add through ids as the store prints them. The source gives no such guarantee, and `Api.MixedCaseOversell` shows the stock going negative otherwise.
- Store failures such as schema validation or failed saves are not modelled. The modelled store failures are an uncastable id, a negative skip and the null product in order placement.
- `Text.ToLower` folds ASCII letters only, while JavaScript's `toLowerCase` is full Unicode. Windows path separators are not modelled.
- Responses are simplified. Cart responses carry the lines without the populated product fields, and listings carry products as the engine returns them.
- Authentication, JWT and cookies (`src/controllers/userController.js`) are not modelled. Server wiring, routes and `asyncHandler` are not modelled either.
