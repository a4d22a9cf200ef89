/** The order handlers of `orderController.js`: placing an order from
    the caller's cart, and the two newest-first order listings. */
module Orders {
  import opened Shop
  import opened Seqs
  import opened Cart

  /** A line passes the stock check: its product still exists and has at
      least the requested quantity in stock. */
  predicate Orderable(l: Line, products: map<ProductId, Product>)
  {
    l.product in products && products[l.product].stock >= l.quantity
  }

  /** The error a failing line produces. A deleted product leaves the
      populated reference null, reading its stock throws, and the handler
      answers with a server error; a short product is named. */
  function LineError(l: Line, products: map<ProductId, Product>): Error
  {
    if l.product !in products then ServerError else NotEnoughStock(products[l.product].name)
  }

  /** The index of the first line, from `from` on, that fails the check:
      the check loop stops at the first failure. */
  function FirstUnorderable(lines: seq<Line>, products: map<ProductId, Product>, from: nat): (r: Option<nat>)
    requires from <= |lines|
    decreases |lines| - from
    ensures r.Some? ==>
      && from <= r.value < |lines|
      && !Orderable(lines[r.value], products)
      && forall j :: from <= j < r.value ==> Orderable(lines[j], products)
    ensures r.None? ==> forall j :: from <= j < |lines| ==> Orderable(lines[j], products)
  {
    if from == |lines| then None
    else if !Orderable(lines[from], products) then Some(from)
    else FirstUnorderable(lines, products, from + 1)
  }

  /** The order items: each line's product and quantity with the
      product's current price copied as `priceAtPurchase`, in cart order. */
  function Snapshot(lines: seq<Line>, products: map<ProductId, Product>): (items: seq<OrderItem>)
    requires forall i :: 0 <= i < |lines| ==> lines[i].product in products
    ensures |items| == |lines|
    ensures forall i :: 0 <= i < |lines| ==>
      items[i] == OrderItem(lines[i].product, lines[i].quantity, products[lines[i].product].price)
  {
    if |lines| == 0 then []
    else
      var l := lines[0];
      [OrderItem(l.product, l.quantity, products[l.product].price)] + Snapshot(lines[1..], products)
  }

  /** Sum of `priceAtPurchase * quantity` over the items. */
  function OrderTotal(items: seq<OrderItem>): int
  {
    if |items| == 0 then 0 else items[0].priceAtPurchase * items[0].quantity + OrderTotal(items[1..])
  }

  /** The order total equals the cart's live price total: the amount
      charged is what the cart showed for the same lines. */
  lemma {:induction false} SnapshotTotal(lines: seq<Line>, products: map<ProductId, Product>)
    requires forall i :: 0 <= i < |lines| ==> lines[i].product in products
    ensures OrderTotal(Snapshot(lines, products)) == TotalPrice(lines, products)
  {
    if |lines| != 0 {
      SnapshotTotal(lines[1..], products);
      var items := Snapshot(lines, products);
      assert items[1..] == Snapshot(lines[1..], products);
    }
  }

  /** How the quantity requested of a product splits at the head. */
  lemma QuantityOfHead(lines: seq<Line>, id: ProductId)
    requires |lines| > 0
    ensures QuantityOf(lines, id)
      == (if lines[0].product == id then lines[0].quantity else 0) + QuantityOf(lines[1..], id)
  {
    assert lines == [lines[0]] + lines[1..];
    QuantityOfConcat([lines[0]], lines[1..], id);
    QuantityOfSingle(lines[0], id);
  }

  /** The decrement loop: for each line in turn, re-read the product and
      lower its stock by the line quantity. */
  function Decrement(products: map<ProductId, Product>, lines: seq<Line>): (r: map<ProductId, Product>)
    requires forall i :: 0 <= i < |lines| ==> lines[i].product in products
    ensures r.Keys == products.Keys
    ensures forall id :: id in products ==>
      r[id] == products[id].(stock := products[id].stock - QuantityOf(lines, id))
  {
    if |lines| == 0 then products
    else
      var p := lines[0].product;
      var products' := products[p := products[p].(stock := products[p].stock - lines[0].quantity)];
      var rest := Decrement(products', lines[1..]);
      DecrementStep(products, lines, products', rest);
      rest
  }

  /** One step of the decrement loop composes with the rest of it. */
  lemma DecrementStep(products: map<ProductId, Product>, lines: seq<Line>,
                      products': map<ProductId, Product>, rest: map<ProductId, Product>)
    requires |lines| > 0 && lines[0].product in products
    requires products' == products[lines[0].product :=
      products[lines[0].product].(stock := products[lines[0].product].stock - lines[0].quantity)]
    requires rest.Keys == products'.Keys
    requires forall id :: id in products' ==>
      rest[id] == products'[id].(stock := products'[id].stock - QuantityOf(lines[1..], id))
    ensures rest.Keys == products.Keys
    ensures forall id :: id in products ==>
      rest[id] == products[id].(stock := products[id].stock - QuantityOf(lines, id))
  {
    var p := lines[0].product;
    forall id | id in products
      ensures rest[id] == products[id].(stock := products[id].stock - QuantityOf(lines, id))
    {
      QuantityOfHead(lines, id);
      assert id in products';
    }
  }

  /** POST /api/orders. An empty or missing cart is refused. Every line is
      checked before any stock changes; the first failing line aborts with
      no change at all. Otherwise the prices are copied, the total is
      computed, the stock of every product in the cart is lowered, one
      order is appended and the cart is emptied. The cache is not touched. */
  function PlaceOrder(s: State, user: UserId): (r: (Response, State))
    ensures CartOf(s, user) == [] ==> r == (Failed(CartEmpty), s)
    ensures r.0.Failed? ==> r.1 == s
    ensures r.0.Failed? || r.0.OrderPlaced?
    ensures CartOf(s, user) != [] ==>
      var lines := CartOf(s, user);
      && (r.0.OrderPlaced? <==> forall i :: 0 <= i < |lines| ==> Orderable(lines[i], s.products))
      && (forall i :: FirstUnorderable(lines, s.products, 0) == Some(i) ==>
            r == (Failed(LineError(lines[i], s.products)), s))
    ensures r.0.OrderPlaced? ==>
      var lines := CartOf(s, user);
      var o := r.0.order;
      && o.user == user
      && o.createdAt == |s.orders|
      && |o.items| == |lines|
      && (forall i :: 0 <= i < |lines| ==>
            o.items[i] == OrderItem(lines[i].product, lines[i].quantity, s.products[lines[i].product].price))
      && o.totalAmount == TotalPrice(lines, s.products)
      && r.1.orders == s.orders + [o]
      && r.1.carts == s.carts[user := []]
      && r.1.cache == s.cache
      && r.1.products.Keys == s.products.Keys
      && (forall id :: id in s.products ==>
            r.1.products[id] == s.products[id].(stock := s.products[id].stock - QuantityOf(lines, id)))
  {
    var lines := CartOf(s, user);
    if lines == [] then (Failed(CartEmpty), s)
    else
      match FirstUnorderable(lines, s.products, 0)
      case Some(i) => (Failed(LineError(lines[i], s.products)), s)
      case None =>
        var items := Snapshot(lines, s.products);
        SnapshotTotal(lines, s.products);
        var order := Order(|s.orders|, user, items, OrderTotal(items));
        (OrderPlaced(order),
         s.(products := Decrement(s.products, lines),
            orders := s.orders + [order],
            carts := s.carts[user := []]))
  }

  /** In the sequential model, a cart without duplicate lines cannot
      oversell: if every stock was non-negative before the order, every
      stock is non-negative after it. */
  lemma PlaceOrderKeepsStockNonNegative(s: State, user: UserId)
    requires NoDuplicates(CartOf(s, user))
    requires forall id :: id in s.products ==> s.products[id].stock >= 0
    ensures var s' := PlaceOrder(s, user).1;
      forall id :: id in s'.products ==> s'.products[id].stock >= 0
  {
    var lines := CartOf(s, user);
    var r := PlaceOrder(s, user);
    if r.0.OrderPlaced? {
      forall id | id in r.1.products
        ensures r.1.products[id].stock >= 0
      {
        QuantityOfUnique(lines, id);
        if i :| 0 <= i < |lines| && lines[i].product == id {
          assert Orderable(lines[i], s.products);
        }
      }
    }
  }

  /** Orders placed by `user`. */
  function PlacedBy(user: UserId): Order -> bool
  {
    (o: Order) => o.user == user
  }

  /** Orders appear in creation order. */
  predicate Chronological(orders: seq<Order>)
  {
    forall i, j :: 0 <= i < j < |orders| ==> orders[i].createdAt < orders[j].createdAt
  }

  /** Orders appear newest first. */
  predicate NewestFirst(orders: seq<Order>)
  {
    forall i, j :: 0 <= i < j < |orders| ==> orders[i].createdAt > orders[j].createdAt
  }

  /** An order older than every order of a chronological log can be put
      in front of it. */
  lemma PrependKeepsChronological(first: Order, rest: seq<Order>)
    requires Chronological(rest)
    requires forall o :: o in rest ==> first.createdAt < o.createdAt
    ensures Chronological([first] + rest)
  {
    var f := [first] + rest;
    forall i, j | 0 <= i < j < |f|
      ensures f[i].createdAt < f[j].createdAt
    {
      assert f[j] == rest[j - 1];
      if i != 0 {
        assert f[i] == rest[i - 1];
      }
    }
  }

  /** A filter keeps a chronological log chronological. */
  lemma {:induction false} FilterKeepsChronological(orders: seq<Order>, keep: Order -> bool)
    requires Chronological(orders)
    ensures Chronological(Filter(orders, keep))
  {
    if |orders| != 0 {
      var tail := orders[1..];
      FilterKeepsChronological(tail, keep);
      if keep(orders[0]) {
        var rest := Filter(tail, keep);
        forall o | o in rest
          ensures orders[0].createdAt < o.createdAt
        {
          var k :| 0 <= k < |tail| && tail[k] == o;
          assert orders[k + 1] == o;
        }
        PrependKeepsChronological(orders[0], rest);
      }
    }
  }

  /** GET /api/orders/my: the caller's orders, newest first. */
  function GetMyOrders(s: State, user: UserId): (r: Response)
    ensures r.OrderList?
    ensures forall o :: o in r.orders <==> o in s.orders && o.user == user
    ensures forall o :: multiset(r.orders)[o] == if o.user == user then multiset(s.orders)[o] else 0
    ensures Chronological(s.orders) ==> NewestFirst(r.orders)
  {
    assert Chronological(s.orders) ==> Chronological(Filter(s.orders, PlacedBy(user))) by {
      if Chronological(s.orders) {
        FilterKeepsChronological(s.orders, PlacedBy(user));
      }
    }
    OrderList(Reverse(Filter(s.orders, PlacedBy(user))))
  }

  /** GET /api/orders (admin): every order, newest first. */
  function GetAllOrders(s: State): (r: Response)
    ensures r.OrderList?
    ensures multiset(r.orders) == multiset(s.orders)
    ensures Chronological(s.orders) ==> NewestFirst(r.orders)
  {
    OrderList(Reverse(s.orders))
  }
}
