/** The store state the shop's controllers read and write, and the
    responses they send. The document store (products, carts, orders)
    and the key-value cache become finite maps and sequences; every
    handler is a pure function from a state and a request to a response
    and the next state. */
module Shop {
  import opened Text

  datatype Option<T> = None | Some(value: T)

  /** A product's identity as the store holds and prints it (see
      `IsCanonicalId`); user identities are opaque strings. */
  type ProductId = string
  type UserId = string

  /** A hexadecimal digit of either case. */
  predicate IsHexDigit(c: char)
  {
    '0' <= c <= '9' || 'a' <= c <= 'f' || 'A' <= c <= 'F'
  }

  /** Text the store's id cast accepts: 24 hexadecimal digits of either
      case. */
  predicate IsIdText(text: string)
  {
    |text| == 24 && forall j :: 0 <= j < |text| ==> IsHexDigit(text[j])
  }

  /** The one spelling the store keeps and prints for an id: 24
      lower-case hexadecimal digits. */
  predicate IsCanonicalId(id: string)
  {
    |id| == 24 && forall j :: 0 <= j < |id| ==> '0' <= id[j] <= '9' || 'a' <= id[j] <= 'f'
  }

  /** The digits lower-cased, or `None` when one of them is not
      hexadecimal. */
  function LowerHexDigits(text: string): (r: Option<string>)
    ensures r.Some? <==> forall j :: 0 <= j < |text| ==> IsHexDigit(text[j])
    ensures r.Some? ==> r.value == ToLower(text)
  {
    if |text| == 0 then Some("")
    else if !IsHexDigit(text[0]) then None
    else
      match LowerHexDigits(text[1..])
      case None => None
      case Some(rest) => Some([ToLowerChar(text[0])] + rest)
  }

  /** The store's cast of request text to an id (`findById`, an id field
      of a saved document): any spelling of 24 hexadecimal digits names
      the id written in lower case; any other text makes the store throw. */
  function CastId(text: string): (r: Option<ProductId>)
    ensures r.Some? <==> IsIdText(text)
    ensures r.Some? ==> r.value == ToLower(text) && IsCanonicalId(r.value)
  {
    if |text| != 24 then None else LowerHexDigits(text)
  }

  /** The cast leaves a canonical id as it is. */
  lemma CastIdCanonical(id: string)
    requires IsCanonicalId(id)
    ensures CastId(id) == Some(id)
  {
    assert IsIdText(id);
    assert forall j :: 0 <= j < |id| ==> ToLower(id)[j] == id[j];
    assert ToLower(id) == id;
  }

  /** Two accepted spellings name the same id exactly when they are equal
      ignoring case. */
  lemma CastIdSameIff(a: string, b: string)
    requires IsIdText(a) && IsIdText(b)
    ensures CastId(a) == CastId(b) <==> EqualIgnoringCase(a, b)
  {
    ToLowerEqualIff(a, b);
  }

  /** A catalog entry. Prices are integral currency units (cents). */
  datatype Product = Product(
    name: string,
    description: string,
    price: int,
    stock: int,
    category: string)

  /** One line of a cart: a product reference and a requested quantity. */
  datatype Line = Line(product: ProductId, quantity: int)

  /** One line of an order, with the price copied at purchase time. */
  datatype OrderItem = OrderItem(product: ProductId, quantity: int, priceAtPurchase: int)

  /** An order. `createdAt` is a logical clock: the number of orders that
      existed when it was created. */
  datatype Order = Order(createdAt: nat, user: UserId, items: seq<OrderItem>, totalAmount: int)

  /** The catalog sort orders a listing can ask for. */
  datatype SortOrder = Newest | Oldest | PriceAsc | PriceDesc

  /** The listing filter handed to the document store. An absent field
      places no constraint; `search` is matched by the store. */
  datatype ProductFilter = ProductFilter(
    category: Option<string>,
    minPrice: Option<int>,
    maxPrice: Option<int>,
    search: Option<string>)

  /** A complete listing query: filter, sort, offset and page size. */
  datatype Query = Query(filter: ProductFilter, sort: SortOrder, skip: int, limit: int)

  /** The body of a listing response, which is also what gets cached. */
  datatype ListingResult = ListingResult(
    total: nat,
    page: int,
    limit: int,
    totalPages: int,
    products: seq<Product>)

  /** Cache keys. `ListingKey` is the `products:` namespace, keyed by the
      whole query shape; `ProductKey` is `product:<text>`, built from the
      id text of the request as received, not from the cast id. */
  datatype CacheKey =
    | ListingKey(
        page: int,
        limit: int,
        category: Option<string>,
        minPrice: Option<int>,
        maxPrice: Option<int>,
        search: Option<string>,
        sort: Option<string>)
    | ProductKey(text: string)

  /** What a cache entry holds. */
  datatype Cached = CachedListing(listing: ListingResult) | CachedProduct(product: Product)

  /** The whole persistent state: the three collections and the cache. */
  datatype State = State(
    products: map<ProductId, Product>,
    carts: map<UserId, seq<Line>>,
    orders: seq<Order>,
    cache: map<CacheKey, Cached>)

  /** The lines of a user's cart, or none when the user has no cart. */
  function CartOf(s: State, user: UserId): seq<Line>
  {
    if user in s.carts then s.carts[user] else []
  }

  /** The failures the handlers report. */
  datatype Error =
    | ProductIdRequired
    | ProductNotFound
    | OnlyAvailable(stock: int)
    | CartNotFound
    | CartEmpty
    | NotEnoughStock(name: string)
    | ServerError
  {
    /** The HTTP status the handler answers with. */
    function Status(): int
    {
      match this
      case ProductIdRequired => 400
      case ProductNotFound => 404
      case OnlyAvailable(_) => 400
      case CartNotFound => 404
      case CartEmpty => 400
      case NotEnoughStock(_) => 400
      case ServerError => 500
    }
  }

  /** The responses the handlers send. */
  datatype Response =
    | CartView(items: seq<Line>, totalItems: int, totalPrice: int)
    | CartSaved(lines: seq<Line>)
    | CartCleared
    | OrderPlaced(order: Order)
    | OrderList(orders: seq<Order>)
    | Page(result: ListingResult)
    | ProductView(product: Product)
    | FromCache(value: Cached)
    | ProductUpdated(product: Product)
    | ProductDeleted
    | Failed(error: Error)
  {
    function Status(): int
    {
      match this
      case Failed(e) => e.Status()
      case OrderPlaced(_) => 201
      case _ => 200
    }
  }
}
