/** The catalog handlers of `productController.js` that read through or
    invalidate the cache: the paginated listing, the single-product read,
    the partial update and the delete. */
module Catalog {
  import opened Shop

  /** The query-string parameters of a listing request. `None` stands
      for an absent parameter; for `page` and `limit` also for one that
      does not parse as an integer. Prices arrive already parsed. */
  datatype ListingParams = ListingParams(
    page: Option<int>,
    limit: Option<int>,
    category: Option<string>,
    minPrice: Option<int>,
    maxPrice: Option<int>,
    search: Option<string>,
    sort: Option<string>)

  /** A string parameter that JavaScript treats as true: present and
      non-empty. */
  predicate Truthy(s: Option<string>)
  {
    s.Some? && s.value != ""
  }

  /** `parseInt(value) || fallback`: an absent, unparsable or zero value
      falls back; any other value, negative ones included, is kept. */
  function OrDefault(value: Option<int>, fallback: int): (r: int)
    requires fallback != 0
    ensures r != 0
    ensures value.Some? && value.value != 0 ==> r == value.value
    ensures value.None? || value.value == 0 ==> r == fallback
  {
    match value
    case None => fallback
    case Some(v) => if v == 0 then fallback else v
  }

  const DefaultPage := 1
  const DefaultLimit := 10

  function PageOf(p: ListingParams): int
  {
    OrDefault(p.page, DefaultPage)
  }

  function LimitOf(p: ListingParams): int
  {
    OrDefault(p.limit, DefaultLimit)
  }

  /** The listing cache key: the normalised page and limit and the other
      five parameters as received, in the `products:` namespace. */
  function ListingCacheKey(p: ListingParams): (k: CacheKey)
    ensures k.ListingKey?
  {
    ListingKey(PageOf(p), LimitOf(p), p.category, p.minPrice, p.maxPrice, p.search, p.sort)
  }

  /** The store filter: category only when truthy (exact match), a lower
      price bound only when `minPrice` is given, an upper bound only when
      `maxPrice` is given, a name search only when truthy. */
  function BuildFilter(p: ListingParams): ProductFilter
  {
    ProductFilter(
      if Truthy(p.category) then p.category else None,
      p.minPrice,
      p.maxPrice,
      if Truthy(p.search) then p.search else None)
  }

  /** What a filter selects. The name search is a case-insensitive
      regular expression evaluated by the store; here it is the opaque
      predicate `nameMatches`. */
  predicate Matches(f: ProductFilter, product: Product, nameMatches: (string, string) -> bool)
  {
    && (f.category.Some? ==> product.category == f.category.value)
    && (f.minPrice.Some? ==> product.price >= f.minPrice.value)
    && (f.maxPrice.Some? ==> product.price <= f.maxPrice.value)
    && (f.search.Some? ==> nameMatches(f.search.value, product.name))
  }

  /** The filter built from a request selects exactly the products the
      request's parameters describe. */
  lemma FilterMatchesRequest(p: ListingParams, product: Product, nameMatches: (string, string) -> bool)
    ensures Matches(BuildFilter(p), product, nameMatches) <==>
      && (Truthy(p.category) ==> product.category == p.category.value)
      && (p.minPrice.Some? ==> product.price >= p.minPrice.value)
      && (p.maxPrice.Some? ==> product.price <= p.maxPrice.value)
      && (Truthy(p.search) ==> nameMatches(p.search.value, product.name))
  {
  }

  /** The sort option: three recognised values, newest first otherwise. */
  function SelectSort(sort: Option<string>): (r: SortOrder)
    ensures r == PriceAsc <==> sort == Some("price_asc")
    ensures r == PriceDesc <==> sort == Some("price_desc")
    ensures r == Oldest <==> sort == Some("oldest")
    ensures r == Newest <==> sort !in {Some("price_asc"), Some("price_desc"), Some("oldest")}
  {
    if sort == Some("price_asc") then PriceAsc
    else if sort == Some("price_desc") then PriceDesc
    else if sort == Some("oldest") then Oldest
    else Newest
  }

  /** `Math.ceil(a / b)` for integers: the least `r` with `r * b >= a`
      when `b` is positive, the least `r` with `r * b <= a` when `b` is
      negative. */
  function CeilDiv(a: int, b: int): (r: int)
    requires b != 0
    ensures b > 0 ==> (r - 1) * b < a <= r * b
    ensures b < 0 ==> r * b <= a < (r - 1) * b
  {
    if b > 0 then
      var q := (a + b - 1) / b;
      var m := (a + b - 1) % b;
      assert a + b - 1 == q * b + m && 0 <= m < b;
      assert (q - 1) * b == q * b - b;
      q
    else
      var q := a / b;
      var m := a % b;
      assert a == q * b + m && 0 <= m < -b;
      assert (q - 1) * b == q * b - b;
      q
  }

  /** The query the listing sends to the store. */
  function BuildQuery(p: ListingParams): (q: Query)
    ensures q.skip == (PageOf(p) - 1) * LimitOf(p)
    ensures q.limit == LimitOf(p)
    ensures q.filter == BuildFilter(p) && q.sort == SelectSort(p.sort)
  {
    Query(BuildFilter(p), SelectSort(p.sort), (PageOf(p) - 1) * LimitOf(p), LimitOf(p))
  }

  /** The document store's query engine, a collaborator: the page of
      products a query selects (sort, skip and limit included) and the
      number of products a filter selects. */
  datatype Engine = Engine(
    find: (map<ProductId, Product>, Query) -> seq<Product>,
    count: (map<ProductId, Product>, ProductFilter) -> nat)

  /** The listing body computed from the store on a cache miss. */
  function ComputeListing(products: map<ProductId, Product>, p: ListingParams, engine: Engine): (r: ListingResult)
    ensures r.page == PageOf(p) && r.limit == LimitOf(p)
    ensures r.total == engine.count(products, BuildFilter(p))
    ensures r.products == engine.find(products, BuildQuery(p))
    ensures r.limit > 0 ==> (r.totalPages - 1) * r.limit < r.total <= r.totalPages * r.limit
    ensures r.limit > 0 ==> r.totalPages >= 0
    ensures r.limit < 0 ==> r.totalPages * r.limit <= r.total < (r.totalPages - 1) * r.limit
  {
    var limit := LimitOf(p);
    var total := engine.count(products, BuildFilter(p));
    var totalPages := CeilDiv(total, limit);
    ListingResult(total, PageOf(p), limit, totalPages, engine.find(products, BuildQuery(p)))
  }

  /** GET /api/products. A hit on the listing key answers with the stored
      body, flagged as coming from the cache, without querying the store.
      On a miss the store rejects a negative skip (a page below 1 with a
      positive limit, say): the handler answers 500 and caches nothing.
      Otherwise the body is computed from the store, sent, and stored
      under the key. */
  function GetProducts(s: State, p: ListingParams, engine: Engine): (r: (Response, State))
    ensures ListingCacheKey(p) in s.cache ==> r == (FromCache(s.cache[ListingCacheKey(p)]), s)
    ensures ListingCacheKey(p) !in s.cache && BuildQuery(p).skip < 0 ==> r == (Failed(ServerError), s)
    ensures ListingCacheKey(p) !in s.cache && BuildQuery(p).skip >= 0 ==>
      && r.0 == Page(ComputeListing(s.products, p, engine))
      && r.1 == s.(cache := s.cache[ListingCacheKey(p) := CachedListing(r.0.result)])
  {
    var key := ListingCacheKey(p);
    if key in s.cache then (FromCache(s.cache[key]), s)
    else if BuildQuery(p).skip < 0 then (Failed(ServerError), s)
    else
      var result := ComputeListing(s.products, p, engine);
      (Page(result), s.(cache := s.cache[key := CachedListing(result)]))
  }

  /** Two requests that map to the same cache key would compute the same
      body from the same store: the key captures every parameter the
      query depends on, so a stored body is valid for each of them. */
  lemma ListingKeySound(products: map<ProductId, Product>, p1: ListingParams, p2: ListingParams, engine: Engine)
    requires ListingCacheKey(p1) == ListingCacheKey(p2)
    ensures BuildQuery(p1) == BuildQuery(p2)
    ensures ComputeListing(products, p1, engine) == ComputeListing(products, p2, engine)
  {
  }

  /** Repeating a listing request after a miss: when the miss sent a page,
      the repeat is a hit on that page; when it failed, the repeat fails
      the same way. */
  lemma ListingReadThrough(s: State, p: ListingParams, engine: Engine)
    requires ListingCacheKey(p) !in s.cache
    ensures
      var (r1, s1) := GetProducts(s, p, engine);
      GetProducts(s1, p, engine) == (if r1.Page? then (FromCache(CachedListing(r1.result)), s1) else (r1, s1))
  {
  }

  /** GET /api/products/:id. The cache key is built from the id text as
      received. A hit answers with the stored value flagged as cached. A
      miss reads the store through the id cast: uncastable text makes the
      store throw (500), an unknown id answers 404, and in both cases
      nothing is cached; a known product is cached under the text's key
      and sent. */
  function GetProductById(s: State, text: string): (r: (Response, State))
    ensures ProductKey(text) in s.cache ==> r == (FromCache(s.cache[ProductKey(text)]), s)
    ensures ProductKey(text) !in s.cache && CastId(text).None? ==> r == (Failed(ServerError), s)
    ensures ProductKey(text) !in s.cache && CastId(text).Some? && CastId(text).value !in s.products ==>
      r == (Failed(ProductNotFound), s)
    ensures ProductKey(text) !in s.cache && CastId(text).Some? && CastId(text).value in s.products ==>
      var product := s.products[CastId(text).value];
      && r.0 == ProductView(product)
      && r.1 == s.(cache := s.cache[ProductKey(text) := CachedProduct(product)])
  {
    var key := ProductKey(text);
    if key in s.cache then (FromCache(s.cache[key]), s)
    else
      match CastId(text)
      case None => (Failed(ServerError), s)
      case Some(id) =>
        if id !in s.products then (Failed(ProductNotFound), s)
        else (ProductView(s.products[id]), s.(cache := s.cache[key := CachedProduct(s.products[id])]))
  }

  /** A single-product miss followed by the same read is a hit on the
      product the miss read from the store. */
  lemma ProductReadThrough(s: State, text: string)
    requires ProductKey(text) !in s.cache && CastId(text).Some? && CastId(text).value in s.products
    ensures
      var s1 := GetProductById(s, text).1;
      GetProductById(s1, text) == (FromCache(CachedProduct(s.products[CastId(text).value])), s1)
  {
  }

  /** Two spellings of one id are cached apart: reading the product
      through each of them stores two entries holding the same product. */
  lemma SpellingsCachedApart(s: State, text: string, other: string)
    requires CastId(text).Some? && CastId(other) == CastId(text) && other != text
    requires CastId(text).value in s.products
    requires ProductKey(text) !in s.cache && ProductKey(other) !in s.cache
    ensures
      var product := s.products[CastId(text).value];
      var s2 := GetProductById(GetProductById(s, text).1, other).1;
      && s2.cache[ProductKey(text)] == CachedProduct(product)
      && s2.cache[ProductKey(other)] == CachedProduct(product)
  {
  }

  /** Drop `product:<text>` and every key of the `products:` namespace;
      every other entry, including those for other spellings of the same
      id, stays as it was. */
  function Invalidate(cache: map<CacheKey, Cached>, text: string): (r: map<CacheKey, Cached>)
    ensures ProductKey(text) !in r
    ensures forall k :: k in r ==> !k.ListingKey?
    ensures forall k :: k in r ==> k in cache && r[k] == cache[k]
    ensures forall other :: other != text && ProductKey(other) in cache ==>
      ProductKey(other) in r && r[ProductKey(other)] == cache[ProductKey(other)]
  {
    map k | k in cache && k.ProductKey? && k.text != text :: cache[k]
  }

  /** The body fields of an update request; `None` stands for a field
      that is absent. */
  datatype ProductPatch = ProductPatch(
    name: Option<string>,
    description: Option<string>,
    price: Option<int>,
    category: Option<string>,
    stock: Option<int>)

  /** Name, description, price and category are overwritten only by a
      truthy value, so an empty string or a price of 0 is ignored; stock
      is overwritten whenever it is present, 0 included. */
  function ApplyPatch(product: Product, patch: ProductPatch): (r: Product)
    ensures Truthy(patch.name) ==> r.name == patch.name.value
    ensures !Truthy(patch.name) ==> r.name == product.name
    ensures Truthy(patch.description) ==> r.description == patch.description.value
    ensures !Truthy(patch.description) ==> r.description == product.description
    ensures patch.price.Some? && patch.price.value != 0 ==> r.price == patch.price.value
    ensures patch.price.None? || patch.price.value == 0 ==> r.price == product.price
    ensures Truthy(patch.category) ==> r.category == patch.category.value
    ensures !Truthy(patch.category) ==> r.category == product.category
    ensures patch.stock.Some? ==> r.stock == patch.stock.value
    ensures patch.stock.None? ==> r.stock == product.stock
  {
    var name := if Truthy(patch.name) then patch.name.value else product.name;
    var description := if Truthy(patch.description) then patch.description.value else product.description;
    var price := if patch.price.Some? && patch.price.value != 0 then patch.price.value else product.price;
    var category := if Truthy(patch.category) then patch.category.value else product.category;
    var stock := if patch.stock.Some? then patch.stock.value else product.stock;
    Product(name, description, price, stock, category)
  }

  /** Applying the same patch twice is the same as applying it once. */
  lemma ApplyPatchIdempotent(product: Product, patch: ProductPatch)
    ensures ApplyPatch(ApplyPatch(product, patch), patch) == ApplyPatch(product, patch)
  {
  }

  /** PUT /api/products/:id. The product is found through the id cast:
      uncastable text makes the store throw (500), an unknown id answers
      404, and neither changes anything. Otherwise the patch is applied
      and saved, and `product:<text>`, for the text as received, and every
      listing entry are dropped from the cache. */
  function UpdateProduct(s: State, text: string, patch: ProductPatch): (r: (Response, State))
    ensures CastId(text).None? ==> r == (Failed(ServerError), s)
    ensures CastId(text).Some? && CastId(text).value !in s.products ==> r == (Failed(ProductNotFound), s)
    ensures CastId(text).Some? && CastId(text).value in s.products ==>
      var id := CastId(text).value;
      && r.0 == ProductUpdated(ApplyPatch(s.products[id], patch))
      && r.1.products == s.products[id := ApplyPatch(s.products[id], patch)]
      && r.1.carts == s.carts && r.1.orders == s.orders
      && r.1.cache == Invalidate(s.cache, text)
  {
    match CastId(text)
    case None => (Failed(ServerError), s)
    case Some(id) =>
      if id !in s.products then (Failed(ProductNotFound), s)
      else
        var updated := ApplyPatch(s.products[id], patch);
        (ProductUpdated(updated),
         s.(products := s.products[id := updated], cache := Invalidate(s.cache, text)))
  }

  /** DELETE /api/products/:id. Failures as for an update. Otherwise the
      product is removed and the cache invalidated as for an update.
      Carts that reference it are left as they are. */
  function DeleteProduct(s: State, text: string): (r: (Response, State))
    ensures CastId(text).None? ==> r == (Failed(ServerError), s)
    ensures CastId(text).Some? && CastId(text).value !in s.products ==> r == (Failed(ProductNotFound), s)
    ensures CastId(text).Some? && CastId(text).value in s.products ==>
      var id := CastId(text).value;
      && r.0 == ProductDeleted
      && id !in r.1.products
      && (forall other :: other in s.products && other != id ==>
            other in r.1.products && r.1.products[other] == s.products[other])
      && r.1.products.Keys == s.products.Keys - {id}
      && r.1.carts == s.carts && r.1.orders == s.orders
      && r.1.cache == Invalidate(s.cache, text)
  {
    match CastId(text)
    case None => (Failed(ServerError), s)
    case Some(id) =>
      if id !in s.products then (Failed(ProductNotFound), s)
      else (ProductDeleted, s.(products := s.products - {id}, cache := Invalidate(s.cache, text)))
  }

  /** What a listing request answers when its key is not cached. */
  function ListingMiss(products: map<ProductId, Product>, p: ListingParams, engine: Engine): Response
  {
    if BuildQuery(p).skip < 0 then Failed(ServerError) else Page(ComputeListing(products, p, engine))
  }

  /** After a successful update, reading the product through the same
      text misses the cache and returns the updated document, and every
      listing recomputes from the updated store. */
  lemma UpdateThenReadIsFresh(s: State, text: string, patch: ProductPatch, p: ListingParams, engine: Engine)
    requires CastId(text).Some? && CastId(text).value in s.products
    ensures
      var s1 := UpdateProduct(s, text, patch).1;
      && GetProductById(s1, text).0 == ProductView(ApplyPatch(s.products[CastId(text).value], patch))
      && GetProducts(s1, p, engine).0 == ListingMiss(s1.products, p, engine)
  {
  }

  /** After a successful delete, reading the product through the same
      text answers 404 and every listing recomputes from the store
      without it. */
  lemma DeleteThenReadIsGone(s: State, text: string, p: ListingParams, engine: Engine)
    requires CastId(text).Some? && CastId(text).value in s.products
    ensures
      var s1 := DeleteProduct(s, text).1;
      && GetProductById(s1, text).0 == Failed(ProductNotFound)
      && GetProducts(s1, p, engine).0 == ListingMiss(s1.products, p, engine)
  {
  }

  /** An update through one spelling of an id leaves the entry cached
      under another spelling in place: reading through that spelling
      still serves the entry from before the update, which no longer
      matches the stored product when the patch changed it. */
  lemma UpdateLeavesOtherSpellingStale(s: State, text: string, other: string, patch: ProductPatch)
    requires CastId(text).Some? && CastId(other) == CastId(text) && other != text
    requires CastId(text).value in s.products && ProductKey(other) in s.cache
    ensures
      var id := CastId(text).value;
      var s1 := UpdateProduct(s, text, patch).1;
      && GetProductById(s1, other) == (FromCache(s.cache[ProductKey(other)]), s1)
      && (s.cache[ProductKey(other)] == CachedProduct(s.products[id]) && ApplyPatch(s.products[id], patch) != s.products[id] ==>
            s1.cache[ProductKey(other)] != CachedProduct(s1.products[id]))
  {
  }

  /** A delete through one spelling of an id leaves the entry cached under
      another spelling in place: the deleted product is still served. */
  lemma DeleteLeavesOtherSpellingCached(s: State, text: string, other: string)
    requires CastId(text).Some? && CastId(other) == CastId(text) && other != text
    requires CastId(text).value in s.products && ProductKey(other) in s.cache
    ensures
      var s1 := DeleteProduct(s, text).1;
      && CastId(text).value !in s1.products
      && GetProductById(s1, other) == (FromCache(s.cache[ProductKey(other)]), s1)
  {
  }
}
