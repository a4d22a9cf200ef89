/** The handlers taken together: one request at a time, each dispatched
    to its handler. The invariants sequences of requests keep, the
    oversell another spelling of an id allows, the staleness the order
    handler leaves in the cache, and a purchase scenario are stated here. */
module Api {
  import opened Seqs
  import opened Text
  import opened Shop
  import opened Cart
  import opened Orders
  import opened Catalog

  /** The requests, with the caller's identity where the handler reads
      it. Product ids are the text of the request as received. */
  datatype Request =
    | GetCartRequest(user: UserId)
    | AddToCartRequest(user: UserId, productId: string, quantity: Option<int>)
    | RemoveFromCartRequest(user: UserId, productId: string)
    | ClearCartRequest(user: UserId)
    | PlaceOrderRequest(user: UserId)
    | GetMyOrdersRequest(user: UserId)
    | GetAllOrdersRequest
    | GetProductsRequest(params: ListingParams)
    | GetProductByIdRequest(id: string)
    | UpdateProductRequest(id: string, patch: ProductPatch)
    | DeleteProductRequest(id: string)

  /** One request, handled atomically. */
  function Step(s: State, req: Request, engine: Engine): (Response, State)
  {
    match req
    case GetCartRequest(u) => GetCart(s, u)
    case AddToCartRequest(u, pid, q) => AddToCart(s, u, pid, q)
    case RemoveFromCartRequest(u, pid) => RemoveFromCart(s, u, pid)
    case ClearCartRequest(u) => ClearCart(s, u)
    case PlaceOrderRequest(u) => PlaceOrder(s, u)
    case GetMyOrdersRequest(u) => (GetMyOrders(s, u), s)
    case GetAllOrdersRequest => (GetAllOrders(s), s)
    case GetProductsRequest(p) => GetProducts(s, p, engine)
    case GetProductByIdRequest(id) => GetProductById(s, id)
    case UpdateProductRequest(id, patch) => UpdateProduct(s, id, patch)
    case DeleteProductRequest(id) => DeleteProduct(s, id)
  }

  /** The state after a sequence of requests, handled in order. */
  function Run(s: State, reqs: seq<Request>, engine: Engine): State
    decreases |reqs|
  {
    if |reqs| == 0 then s else Run(Step(s, reqs[0], engine).1, reqs[1..], engine)
  }

  /** Every cart line holds a canonical id and a quantity of at least 1. */
  predicate CartsWellFormed(s: State)
  {
    forall u :: u in s.carts ==> LinesValid(s.carts[u])
  }

  /** The store keys every product by its canonical id. */
  predicate ProductsCanonical(s: State)
  {
    forall id :: id in s.products ==> IsCanonicalId(id)
  }

  /** Orders are numbered by their position: the log is chronological. */
  predicate OrdersWellFormed(s: State)
  {
    forall i :: 0 <= i < |s.orders| ==> s.orders[i].createdAt == i
  }

  /** Listing keys hold listing bodies and product keys hold products. */
  predicate CacheWellTyped(s: State)
  {
    forall k :: k in s.cache ==> (k.ListingKey? <==> s.cache[k].CachedListing?)
  }

  predicate WellFormed(s: State)
  {
    CartsWellFormed(s) && ProductsCanonical(s) && OrdersWellFormed(s) && CacheWellTyped(s)
  }

  /** No cart holds two lines for one product. */
  predicate UniqueCarts(s: State)
  {
    forall u :: u in s.carts ==> NoDuplicates(s.carts[u])
  }

  /** No product has negative stock. */
  predicate StockNonNegative(s: State)
  {
    forall id :: id in s.products ==> s.products[id].stock >= 0
  }

  /** Replacing one cart by valid lines keeps the state well formed. */
  lemma SetCartKeepsWellFormed(s: State, u: UserId, lines: seq<Line>)
    requires WellFormed(s) && LinesValid(lines)
    ensures WellFormed(s.(carts := s.carts[u := lines]))
  {
  }

  /** Placing an order keeps the state well formed: the new order is
      numbered by its position and the emptied cart has no lines. */
  lemma PlaceOrderKeepsWellFormed(s: State, u: UserId)
    requires WellFormed(s)
    ensures WellFormed(PlaceOrder(s, u).1)
  {
    var r := PlaceOrder(s, u);
    if r.0.OrderPlaced? {
      assert r.1.orders == s.orders + [r.0.order];
      SetCartKeepsWellFormed(s, u, []);
      assert r.1.carts == s.carts[u := []];
    }
  }

  /** The catalog handlers keep the state well formed: they store
      listings under listing keys and products under product keys, drop
      entries, and never add a product key to the store. */
  lemma CatalogStepKeepsWellFormed(s: State, req: Request, engine: Engine)
    requires WellFormed(s)
    requires req.GetProductsRequest? || req.GetProductByIdRequest? || req.UpdateProductRequest? || req.DeleteProductRequest?
    ensures WellFormed(Step(s, req, engine).1)
  {
  }

  /** Every handler keeps the state well formed, whatever the request. */
  lemma StepKeepsWellFormed(s: State, req: Request, engine: Engine)
    requires WellFormed(s)
    ensures WellFormed(Step(s, req, engine).1)
  {
    match req
    case GetCartRequest(u) =>
      if u in s.carts {
        FilterKeepsLinesValid(s.carts[u], Live(s.products));
        SetCartKeepsWellFormed(s, u, Filter(s.carts[u], Live(s.products)));
      }
    case AddToCartRequest(u, text, q) =>
      var r := AddToCart(s, u, text, q);
      if !r.0.Failed? {
        AddToCartKeepsLinesValid(s, u, text, q);
        SetCartKeepsWellFormed(s, u, r.1.carts[u]);
      }
    case RemoveFromCartRequest(u, text) =>
      if text != "" && u in s.carts {
        FilterKeepsLinesValid(s.carts[u], NotFor(text));
        SetCartKeepsWellFormed(s, u, Filter(s.carts[u], NotFor(text)));
      }
    case ClearCartRequest(u) =>
      if u in s.carts {
        SetCartKeepsWellFormed(s, u, []);
      }
    case PlaceOrderRequest(u) =>
      PlaceOrderKeepsWellFormed(s, u);
    case GetMyOrdersRequest(u) =>
    case GetAllOrdersRequest =>
    case _ =>
      CatalogStepKeepsWellFormed(s, req, engine);
  }

  /** The request does not add to a cart through a spelling of an id
      other than the one the store prints. */
  predicate SpelledAsStored(req: Request)
  {
    req.AddToCartRequest? && CastId(req.productId).Some? ==> CastId(req.productId) == Some(req.productId)
  }

  /** Carts stay free of duplicate lines as long as adds spell ids as the
      store prints them. */
  lemma StepKeepsUniqueCarts(s: State, req: Request, engine: Engine)
    requires UniqueCarts(s) && SpelledAsStored(req)
    ensures UniqueCarts(Step(s, req, engine).1)
  {
    match req
    case GetCartRequest(u) =>
      if u in s.carts {
        FilterKeepsNoDuplicates(s.carts[u], Live(s.products));
      }
    case AddToCartRequest(u, text, q) =>
      if !AddToCart(s, u, text, q).0.Failed? {
        AddToCartKeepsNoDuplicates(s, u, text, q);
      }
    case RemoveFromCartRequest(u, text) =>
      if text != "" && u in s.carts {
        FilterKeepsNoDuplicates(s.carts[u], NotFor(text));
      }
    case _ =>
  }

  /** The stock a request can set is not negative. */
  predicate SetsNoNegativeStock(req: Request)
  {
    req.UpdateProductRequest? && req.patch.stock.Some? ==> req.patch.stock.value >= 0
  }

  /** No handler drives a stock below zero from a state whose carts have
      no duplicate lines, given updates that set only non-negative stock:
      orders are checked line by line against the stock. */
  lemma StepKeepsStockNonNegative(s: State, req: Request, engine: Engine)
    requires UniqueCarts(s) && StockNonNegative(s) && SetsNoNegativeStock(req)
    ensures StockNonNegative(Step(s, req, engine).1)
  {
    match req
    case PlaceOrderRequest(u) =>
      PlaceOrderKeepsStockNonNegative(s, u);
    case _ =>
  }

  /** Any sequence of requests keeps the state well formed. */
  lemma {:induction false} RunKeepsWellFormed(s: State, reqs: seq<Request>, engine: Engine)
    requires WellFormed(s)
    ensures WellFormed(Run(s, reqs, engine))
    decreases |reqs|
  {
    if |reqs| != 0 {
      StepKeepsWellFormed(s, reqs[0], engine);
      RunKeepsWellFormed(Step(s, reqs[0], engine).1, reqs[1..], engine);
    }
  }

  /** A sequence of requests whose adds spell ids as the store prints them
      and whose updates set only non-negative stock keeps every cart free
      of duplicate lines and every stock non-negative. `MixedCaseOversell`
      shows that the condition on spelling cannot be dropped. */
  lemma {:induction false} RunKeepsStockNonNegative(s: State, reqs: seq<Request>, engine: Engine)
    requires UniqueCarts(s) && StockNonNegative(s)
    requires forall i :: 0 <= i < |reqs| ==> SpelledAsStored(reqs[i]) && SetsNoNegativeStock(reqs[i])
    ensures UniqueCarts(Run(s, reqs, engine)) && StockNonNegative(Run(s, reqs, engine))
    decreases |reqs|
  {
    if |reqs| != 0 {
      StepKeepsUniqueCarts(s, reqs[0], engine);
      StepKeepsStockNonNegative(s, reqs[0], engine);
      var s' := Step(s, reqs[0], engine).1;
      assert forall i :: 0 <= i < |reqs[1..]| ==> SpelledAsStored(reqs[1..][i]) && SetsNoNegativeStock(reqs[1..][i]) by {
        forall i | 0 <= i < |reqs[1..]|
          ensures SpelledAsStored(reqs[1..][i]) && SetsNoNegativeStock(reqs[1..][i])
        {
          assert reqs[1..][i] == reqs[i + 1];
        }
      }
      RunKeepsStockNonNegative(s', reqs[1..], engine);
    }
  }

  /** The start of `MixedCaseOversell`: product P, stock 3, no carts. */
  function OneProductStore(id: ProductId): State
  {
    State(map[id := Product("P", "", 100, 3, "c")], map[], [], map[])
  }

  lemma OneProductStoreValid(id: ProductId)
    requires IsCanonicalId(id)
    ensures var s0 := OneProductStore(id); WellFormed(s0) && UniqueCarts(s0) && StockNonNegative(s0)
  {
  }

  /** Three requests run one after the other. */
  lemma RunThree(s: State, a: Request, b: Request, c: Request, engine: Engine)
    ensures Run(s, [a, b, c], engine) == Step(Step(Step(s, a, engine).1, b, engine).1, c, engine).1
  {
    var s1 := Step(s, a, engine).1;
    var s2 := Step(s1, b, engine).1;
    assert [a, b, c][1..] == [b, c];
    assert [b, c][1..] == [c];
    assert [c][1..] == [];
    assert Run(s, [a, b, c], engine) == Run(s1, [b, c], engine);
    assert Run(s1, [b, c], engine) == Run(s2, [c], engine);
  }

  /** Adding 2 through the printed id and 2 through another spelling
      leaves two lines for the same product. */
  lemma MixedCaseAddsTwoLines(id: ProductId, other: string)
    requires IsCanonicalId(id) && CastId(other) == Some(id) && other != id
    ensures
      var s0 := OneProductStore(id);
      var s2 := AddToCart(AddToCart(s0, "u", id, Some(2)).1, "u", other, Some(2)).1;
      s2 == s0.(carts := map["u" := [Line(id, 2), Line(id, 2)]])
  {
    CastIdCanonical(id);
    var s0 := OneProductStore(id);
    var s1 := AddToCart(s0, "u", id, Some(2)).1;
    assert AddedQuantity(Some(2)) == 2;
    assert s1 == s0.(carts := map["u" := [Line(id, 2)]]);
    assert FindLine([Line(id, 2)], other) == None;
    assert [Line(id, 2)] + [Line(id, 2)] == [Line(id, 2), Line(id, 2)];
    assert s1.carts["u" := [Line(id, 2), Line(id, 2)]] == map["u" := [Line(id, 2), Line(id, 2)]];
  }

  /** Two cart lines for one product defeat the per-line stock check:
      each line of 2 passes against a stock of 3, the order is placed, and
      the decrement takes 4 from the stock. */
  lemma TwoLinesOrderOversells(id: ProductId)
    ensures
      var s2 := OneProductStore(id).(carts := map["u" := [Line(id, 2), Line(id, 2)]]);
      var r := PlaceOrder(s2, "u");
      r.0.OrderPlaced? && id in r.1.products && r.1.products[id].stock == -1
  {
    var lines := [Line(id, 2), Line(id, 2)];
    var s2 := OneProductStore(id).(carts := map["u" := lines]);
    assert FirstUnorderable(lines, s2.products, 0) == None;
    QuantityOfHead(lines, id);
    QuantityOfHead(lines[1..], id);
    assert lines[1..][1..] == [];
  }

  /** Product P, stock 3, added twice with quantity 2, once through its id
      as printed and once through another spelling of it, then ordered:
      the second add finds no line and passes the stock check, the order
      passes the per-line check, and the stock ends at -1. The start state
      meets every invariant, so `RunKeepsStockNonNegative` needs its
      condition on spelling. */
  lemma MixedCaseOversell(id: ProductId, other: string, engine: Engine)
    requires IsCanonicalId(id) && CastId(other) == Some(id) && other != id
    ensures
      var s0 := OneProductStore(id);
      var reqs := [AddToCartRequest("u", id, Some(2)), AddToCartRequest("u", other, Some(2)), PlaceOrderRequest("u")];
      && WellFormed(s0) && UniqueCarts(s0) && StockNonNegative(s0)
      && (forall i :: 0 <= i < |reqs| ==> SetsNoNegativeStock(reqs[i]))
      && id in Run(s0, reqs, engine).products
      && Run(s0, reqs, engine).products[id].stock == -1
  {
    var s0 := OneProductStore(id);
    OneProductStoreValid(id);
    MixedCaseAddsTwoLines(id, other);
    TwoLinesOrderOversells(id);
    RunThree(s0, AddToCartRequest("u", id, Some(2)), AddToCartRequest("u", other, Some(2)), PlaceOrderRequest("u"), engine);
  }

  /** An id as the store prints it: 23 zeros, then `a`. */
  function SampleId(): ProductId
  {
    seq(24, j => if j == 23 then 'a' else '0')
  }

  /** The same id with its letter in upper case. */
  function SampleIdShouted(): string
  {
    seq(24, j => if j == 23 then 'A' else '0')
  }

  lemma SampleIdCanonical()
    ensures IsCanonicalId(SampleId())
  {
  }

  lemma ShoutedLowersToSample()
    ensures IsIdText(SampleIdShouted()) && ToLower(SampleIdShouted()) == SampleId()
  {
    var l := ToLower(SampleIdShouted());
    assert forall j :: 0 <= j < 24 ==> l[j] == SampleId()[j];
  }

  /** The upper-case spelling names the same product, so the premise of
      `MixedCaseOversell` is met. */
  lemma ShoutedSpellingCasts()
    ensures IsCanonicalId(SampleId())
    ensures CastId(SampleIdShouted()) == Some(SampleId()) && SampleIdShouted() != SampleId()
  {
    SampleIdCanonical();
    ShoutedLowersToSample();
    assert SampleIdShouted()[23] != SampleId()[23];
  }

  /** In a well-formed state both order listings are newest first. */
  lemma OrderListingsNewestFirst(s: State, user: UserId)
    requires OrdersWellFormed(s)
    ensures NewestFirst(GetMyOrders(s, user).orders)
    ensures NewestFirst(GetAllOrders(s).orders)
  {
    assert Chronological(s.orders);
  }

  /** Placing an order changes stock but not the cache: a product entry
      that was current before the order still holds the old stock after
      it, and a read of the product returns that stale stock. */
  lemma OrderLeavesProductEntryStale(s: State, user: UserId, pid: ProductId)
    requires pid in s.products && ProductKey(pid) in s.cache
    requires s.cache[ProductKey(pid)] == CachedProduct(s.products[pid])
    requires PlaceOrder(s, user).0.OrderPlaced?
    requires QuantityOf(CartOf(s, user), pid) != 0
    ensures
      var s' := PlaceOrder(s, user).1;
      && s'.products[pid].stock == s.products[pid].stock - QuantityOf(CartOf(s, user), pid)
      && s'.cache[ProductKey(pid)] != CachedProduct(s'.products[pid])
      && GetProductById(s', pid).0 == FromCache(CachedProduct(s.products[pid]))
  {
  }

  /** Product P, under any id as the store prints it, has stock 3. A user
      adds 2 of P and places an order: the order holds 2 of P at P's
      price, P's stock becomes 1 and the cart is empty. A later price
      change leaves the order as it was. */
  lemma PurchaseScenario(id: ProductId)
    requires IsCanonicalId(id)
    ensures
      var p := Product("P", "a product", 500, 3, "tools");
      var s0 := State(map[id := p], map[], [], map[]);
      var s1 := AddToCart(s0, "u", id, Some(2)).1;
      var (r2, s2) := PlaceOrder(s1, "u");
      var s3 := UpdateProduct(s2, id, ProductPatch(None, None, Some(900), None, None)).1;
      && r2 == OrderPlaced(Order(0, "u", [OrderItem(id, 2, 500)], 1000))
      && s2.products[id].stock == 1
      && s2.carts["u"] == []
      && s3.products[id].price == 900
      && s3.orders == [Order(0, "u", [OrderItem(id, 2, 500)], 1000)]
  {
    CastIdCanonical(id);
    var p := Product("P", "a product", 500, 3, "tools");
    var s0 := State(map[id := p], map[], [], map[]);
    var s1 := AddToCart(s0, "u", id, Some(2)).1;
    assert s1.carts["u"] == [Line(id, 2)];
    var lines := [Line(id, 2)];
    assert FirstUnorderable(lines, s1.products, 0) == None;
    assert lines[1..] == [];
    assert QuantityOf(lines, id) == 2;
    assert TotalPrice(lines, s1.products) == 1000;
  }
}
