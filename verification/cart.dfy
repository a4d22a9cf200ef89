/** The cart handlers of `cartController.js`: read with pruning and
    totals, add with merge and stock check, remove and clear. */
module Cart {
  import opened Shop
  import opened Seqs

  /** Lines whose product still exists in the catalog. */
  function Live(products: map<ProductId, Product>): Line -> bool
  {
    (l: Line) => l.product in products
  }

  /** Lines whose stored id is not `text`. */
  function NotFor(text: string): Line -> bool
  {
    (l: Line) => l.product != text
  }

  /** Sum of the line quantities (`totalItems`). */
  function TotalItems(lines: seq<Line>): int
  {
    if |lines| == 0 then 0 else lines[0].quantity + TotalItems(lines[1..])
  }

  /** Live price times quantity; a line whose product is gone costs 0. */
  function LineCost(l: Line, products: map<ProductId, Product>): int
  {
    if l.product in products then products[l.product].price * l.quantity else 0
  }

  /** Sum of the live line costs (`totalPrice`). */
  function TotalPrice(lines: seq<Line>, products: map<ProductId, Product>): int
  {
    if |lines| == 0 then 0 else LineCost(lines[0], products) + TotalPrice(lines[1..], products)
  }

  /** The total quantity the lines request of product `pid`. */
  function QuantityOf(lines: seq<Line>, pid: ProductId): int
  {
    if |lines| == 0 then 0
    else (if lines[0].product == pid then lines[0].quantity else 0) + QuantityOf(lines[1..], pid)
  }

  /** No two lines reference the same product. */
  predicate NoDuplicates(lines: seq<Line>)
  {
    forall i, j :: 0 <= i < j < |lines| ==> lines[i].product != lines[j].product
  }

  /** Dropping lines never creates a duplicate. */
  lemma {:induction false} FilterKeepsNoDuplicates(lines: seq<Line>, keep: Line -> bool)
    requires NoDuplicates(lines)
    ensures NoDuplicates(Filter(lines, keep))
  {
    if |lines| != 0 {
      var rest := Filter(lines[1..], keep);
      FilterKeepsNoDuplicates(lines[1..], keep);
      if keep(lines[0]) {
        var f := [lines[0]] + rest;
        forall i, j | 0 <= i < j < |f|
          ensures f[i].product != f[j].product
        {
          if i == 0 {
            assert f[j] == rest[j - 1];
            assert rest[j - 1] in lines[1..];
          } else {
            assert f[i] == rest[i - 1] && f[j] == rest[j - 1];
          }
        }
      }
    }
  }

  lemma {:induction false} TotalItemsConcat(a: seq<Line>, b: seq<Line>)
    ensures TotalItems(a + b) == TotalItems(a) + TotalItems(b)
  {
    if |a| == 0 {
      assert a + b == b;
    } else {
      assert (a + b)[1..] == a[1..] + b;
      TotalItemsConcat(a[1..], b);
    }
  }

  lemma {:induction false} TotalPriceConcat(a: seq<Line>, b: seq<Line>, products: map<ProductId, Product>)
    ensures TotalPrice(a + b, products) == TotalPrice(a, products) + TotalPrice(b, products)
  {
    if |a| == 0 {
      assert a + b == b;
    } else {
      assert (a + b)[1..] == a[1..] + b;
      TotalPriceConcat(a[1..], b, products);
    }
  }

  /** Pruning dead lines does not change the price total, because a dead
      line already contributes nothing to it. */
  lemma {:induction false} PruneKeepsTotalPrice(lines: seq<Line>, products: map<ProductId, Product>)
    ensures TotalPrice(Filter(lines, Live(products)), products) == TotalPrice(lines, products)
  {
    if |lines| != 0 {
      PruneKeepsTotalPrice(lines[1..], products);
      if lines[0].product in products {
        var rest := Filter(lines[1..], Live(products));
        assert ([lines[0]] + rest)[1..] == rest;
      }
    }
  }

  /** The quantity requested of `pid` splits over a concatenation. */
  lemma {:induction false} QuantityOfConcat(a: seq<Line>, b: seq<Line>, pid: ProductId)
    ensures QuantityOf(a + b, pid) == QuantityOf(a, pid) + QuantityOf(b, pid)
  {
    if |a| == 0 {
      assert a + b == b;
    } else {
      assert (a + b)[1..] == a[1..] + b;
      QuantityOfConcat(a[1..], b, pid);
    }
  }

  /** The quantity requested of `pid` by a single line. */
  lemma QuantityOfSingle(l: Line, pid: ProductId)
    ensures QuantityOf([l], pid) == if l.product == pid then l.quantity else 0
  {
    assert [l][1..] == [];
  }

  /** Without duplicates, the quantity requested of a product is that of
      its one line, or 0 when no line references it. */
  lemma {:induction false} QuantityOfUnique(lines: seq<Line>, pid: ProductId)
    requires NoDuplicates(lines)
    ensures forall i :: 0 <= i < |lines| && lines[i].product == pid ==> QuantityOf(lines, pid) == lines[i].quantity
    ensures (forall i :: 0 <= i < |lines| ==> lines[i].product != pid) ==> QuantityOf(lines, pid) == 0
  {
    if |lines| != 0 {
      assert lines == [lines[0]] + lines[1..];
      QuantityOfConcat([lines[0]], lines[1..], pid);
      QuantityOfSingle(lines[0], pid);
      QuantityOfUnique(lines[1..], pid);
      if lines[0].product == pid {
        assert forall i :: 0 <= i < |lines[1..]| ==> lines[1..][i].product != pid by {
          forall i | 0 <= i < |lines[1..]|
            ensures lines[1..][i].product != pid
          {
            assert lines[1..][i] == lines[i + 1];
          }
        }
      }
    }
  }

  /** The reduce loops that compute `totalItems` and `totalPrice`,
      folding the lines from the left. */
  method CartTotals(lines: seq<Line>, products: map<ProductId, Product>) returns (items: int, price: int)
    ensures items == TotalItems(lines)
    ensures price == TotalPrice(lines, products)
  {
    items, price := 0, 0;
    var i := 0;
    while i < |lines|
      invariant 0 <= i <= |lines|
      invariant items == TotalItems(lines[..i])
      invariant price == TotalPrice(lines[..i], products)
    {
      assert lines[..i + 1] == lines[..i] + [lines[i]];
      TotalItemsConcat(lines[..i], [lines[i]]);
      TotalPriceConcat(lines[..i], [lines[i]], products);
      assert [lines[i]][1..] == [];
      items := items + lines[i].quantity;
      price := price + LineCost(lines[i], products);
      i := i + 1;
    }
    assert lines[..i] == lines;
  }

  /** GET /api/cart. A user without a cart sees an empty cart and no cart
      is created. Otherwise the lines whose product was deleted are
      dropped, the pruned cart is saved, and the totals are computed over
      the lines that remain, at live prices. */
  function GetCart(s: State, user: UserId): (r: (Response, State))
    ensures user !in s.carts ==> r == (CartView([], 0, 0), s)
    ensures user in s.carts ==>
      && r.0.CartView?
      && r.1 == s.(carts := s.carts[user := r.0.items])
      && (forall l :: l in r.0.items <==> l in s.carts[user] && l.product in s.products)
      && r.0.totalItems == TotalItems(r.0.items)
      && r.0.totalPrice == TotalPrice(s.carts[user], s.products)
  {
    if user !in s.carts then (CartView([], 0, 0), s)
    else
      var lines := s.carts[user];
      var pruned := Filter(lines, Live(s.products));
      PruneKeepsTotalPrice(lines, s.products);
      (CartView(pruned, TotalItems(pruned), TotalPrice(pruned, s.products)),
       s.(carts := s.carts[user := pruned]))
  }

  /** Reading a cart twice: the second read prunes nothing more, changes
      nothing, and shows the same view. */
  lemma GetCartIdempotent(s: State, user: UserId)
    ensures GetCart(GetCart(s, user).1, user) == GetCart(s, user)
  {
    if user in s.carts {
      FilterIdempotent(s.carts[user], Live(s.products));
      var s1 := GetCart(s, user).1;
      assert s1.carts[user := s1.carts[user]] == s1.carts;
    }
  }

  /** Pruning keeps the surviving lines in order: reading a cart that is
      the concatenation of two parts prunes each part in place. */
  lemma PruneInOrder(s: State, user: UserId, a: seq<Line>, b: seq<Line>)
    requires user in s.carts && s.carts[user] == a + b
    ensures GetCart(s, user).0.items == Filter(a, Live(s.products)) + Filter(b, Live(s.products))
  {
    FilterConcat(a, b, Live(s.products));
  }

  /** `Math.max(1, Number(quantity) || 1)`, where `None` stands for an
      absent or non-numeric quantity. */
  function AddedQuantity(quantity: Option<int>): (q: int)
    ensures q >= 1
    ensures quantity.Some? && quantity.value >= 1 ==> q == quantity.value
    ensures quantity.None? || quantity.value < 1 ==> q == 1
  {
    var n := match quantity
      case None => 1
      case Some(v) => if v == 0 then 1 else v;
    if n < 1 then 1 else n
  }

  /** The index of the first line for `pid` (`items.find`). */
  function FindLine(lines: seq<Line>, pid: ProductId): (r: Option<nat>)
    ensures r.Some? ==>
      && r.value < |lines|
      && lines[r.value].product == pid
      && forall j :: 0 <= j < r.value ==> lines[j].product != pid
    ensures r.None? ==> forall j :: 0 <= j < |lines| ==> lines[j].product != pid
  {
    if |lines| == 0 then None
    else if lines[0].product == pid then Some(0)
    else
      match FindLine(lines[1..], pid)
      case None => None
      case Some(k) => Some(k + 1)
  }

  /** POST /api/cart/add. `text == ""` stands for a missing id. The
      product is looked up through the store's id cast, so any spelling of
      its id finds it; an uncastable id makes the store throw (500). The
      existing line, though, is matched by comparing each stored id with
      the request text as received, and a new line stores the cast id. */
  function AddToCart(s: State, user: UserId, text: string, quantity: Option<int>): (r: (Response, State))
    ensures text == "" ==> r == (Failed(ProductIdRequired), s)
    ensures text != "" && CastId(text).None? ==> r == (Failed(ServerError), s)
    ensures CastId(text).Some? && CastId(text).value !in s.products ==> r == (Failed(ProductNotFound), s)
    ensures r.0.Failed? ==> r.1 == s
    ensures CastId(text).Some? && CastId(text).value in s.products ==>
      var before := CartOf(s, user);
      var qty := AddedQuantity(quantity);
      var current := match FindLine(before, text) case Some(i) => before[i].quantity case None => 0;
      var stock := s.products[CastId(text).value].stock;
      && (stock < current + qty <==> r.0.Failed?)
      && (stock < current + qty ==> r.0 == Failed(OnlyAvailable(stock)))
      && (!r.0.Failed? ==>
            && user in r.1.carts
            && r.0 == CartSaved(r.1.carts[user])
            && r.1 == s.(carts := s.carts[user := r.1.carts[user]]))
  {
    if text == "" then (Failed(ProductIdRequired), s)
    else
      var qty := AddedQuantity(quantity);
      match CastId(text)
      case None => (Failed(ServerError), s)
      case Some(id) =>
        if id !in s.products then (Failed(ProductNotFound), s)
        else
          var product := s.products[id];
          var lines := CartOf(s, user);
          var existing := FindLine(lines, text);
          var current := match existing case Some(i) => lines[i].quantity case None => 0;
          if product.stock < current + qty then (Failed(OnlyAvailable(product.stock)), s)
          else
            var lines' :=
              if user !in s.carts then [Line(id, qty)]
              else match existing
                case Some(i) => lines[i := lines[i].(quantity := lines[i].quantity + qty)]
                case None => lines + [Line(id, qty)];
            (CartSaved(lines'), s.(carts := s.carts[user := lines']))
  }

  /** What a successful add does to the user's cart. When a line's stored
      id equals the request text, that first line grows by the added
      quantity; otherwise one line for the cast id is appended (creating
      the cart if needed). The touched line then holds no more than the
      product's stock, every other line is unchanged, and the cart
      requests exactly the added quantity more of the touched id. */
  lemma AddToCartEffect(s: State, user: UserId, text: string, quantity: Option<int>)
    requires !AddToCart(s, user, text, quantity).0.Failed?
    ensures CastId(text).Some? && CastId(text).value in s.products
    ensures
      var id := CastId(text).value;
      var before := CartOf(s, user);
      var after := AddToCart(s, user, text, quantity).1.carts[user];
      var qty := AddedQuantity(quantity);
      && |after| == |before| + (if FindLine(before, text).Some? then 0 else 1)
      && (forall i :: 0 <= i < |before| && FindLine(before, text) != Some(i) ==> after[i] == before[i])
      && TotalItems(after) == TotalItems(before) + qty
      && (FindLine(before, text).Some? ==>
            var k := FindLine(before, text).value;
            && after[k] == Line(text, before[k].quantity + qty)
            && after[k].quantity <= s.products[id].stock
            && QuantityOf(after, text) == QuantityOf(before, text) + qty)
      && (FindLine(before, text).None? ==>
            && after[|before|] == Line(id, qty)
            && qty <= s.products[id].stock
            && QuantityOf(after, id) == QuantityOf(before, id) + qty)
  {
    var id := CastId(text).value;
    var before := CartOf(s, user);
    var after := AddToCart(s, user, text, quantity).1.carts[user];
    var qty := AddedQuantity(quantity);
    match FindLine(before, text)
    case None =>
      assert after == before + [Line(id, qty)];
      AppendLineSums(before, Line(id, qty));
    case Some(i) =>
      var l := Line(text, before[i].quantity + qty);
      assert after == before[i := l];
      ReplaceLineSums(before, i, l);
  }

  /** Sums after appending one line. */
  lemma AppendLineSums(lines: seq<Line>, l: Line)
    ensures TotalItems(lines + [l]) == TotalItems(lines) + l.quantity
    ensures QuantityOf(lines + [l], l.product) == QuantityOf(lines, l.product) + l.quantity
  {
    QuantityOfConcat(lines, [l], l.product);
    QuantityOfSingle(l, l.product);
    TotalItemsConcat(lines, [l]);
    assert [l][1..] == [];
  }

  /** Sums after replacing line `i` by a line for the same product. */
  lemma ReplaceLineSums(lines: seq<Line>, i: nat, l: Line)
    requires i < |lines| && lines[i].product == l.product
    ensures TotalItems(lines[i := l]) == TotalItems(lines) - lines[i].quantity + l.quantity
    ensures QuantityOf(lines[i := l], l.product) == QuantityOf(lines, l.product) - lines[i].quantity + l.quantity
  {
    var pre, post := lines[..i], lines[i + 1..];
    assert lines[i := l] == (pre + [l]) + post;
    assert lines == (pre + [lines[i]]) + post;
    QuantityOfConcat(pre + [l], post, l.product);
    QuantityOfConcat(pre + [lines[i]], post, l.product);
    AppendLineSums(pre, l);
    AppendLineSums(pre, lines[i]);
    TotalItemsConcat(pre + [l], post);
    TotalItemsConcat(pre + [lines[i]], post);
  }

  /** Every line holds a canonical id and a quantity of at least 1: the
      shape every line the handlers store has. */
  predicate LinesValid(lines: seq<Line>)
  {
    forall i :: 0 <= i < |lines| ==> IsCanonicalId(lines[i].product) && lines[i].quantity >= 1
  }

  /** Adding keeps every line valid, whatever the spelling of the id. */
  lemma AddToCartKeepsLinesValid(s: State, user: UserId, text: string, quantity: Option<int>)
    requires LinesValid(CartOf(s, user))
    requires !AddToCart(s, user, text, quantity).0.Failed?
    ensures LinesValid(AddToCart(s, user, text, quantity).1.carts[user])
  {
    var before := CartOf(s, user);
    var after := AddToCart(s, user, text, quantity).1.carts[user];
    match FindLine(before, text)
    case None =>
      assert after == before + [Line(CastId(text).value, AddedQuantity(quantity))];
    case Some(i) =>
      assert after == before[i := before[i].(quantity := before[i].quantity + AddedQuantity(quantity))];
  }

  /** Adding through the id as the store prints it never creates a second
      line for a product. */
  lemma AddToCartKeepsNoDuplicates(s: State, user: UserId, text: string, quantity: Option<int>)
    requires NoDuplicates(CartOf(s, user))
    requires CastId(text) == Some(text)
    requires !AddToCart(s, user, text, quantity).0.Failed?
    ensures NoDuplicates(AddToCart(s, user, text, quantity).1.carts[user])
  {
    var before := CartOf(s, user);
    var after := AddToCart(s, user, text, quantity).1.carts[user];
    match FindLine(before, text)
    case None =>
      assert after == before + [Line(text, AddedQuantity(quantity))];
    case Some(i) =>
      assert after == before[i := before[i].(quantity := before[i].quantity + AddedQuantity(quantity))];
  }

  /** Adding through any other spelling of an id the cart already holds
      (upper-case hexadecimal digits, say) finds no line, since the stored
      id differs from the text. The stock check then sees a current
      quantity of 0, and on success a second line for the same product is
      appended. */
  lemma OtherSpellingAddsSecondLine(s: State, user: UserId, text: string, quantity: Option<int>, i: nat)
    requires CastId(text).Some? && CastId(text).value != text
    requires LinesValid(CartOf(s, user))
    requires i < |CartOf(s, user)| && CartOf(s, user)[i].product == CastId(text).value
    requires CastId(text).value in s.products
    ensures
      var id := CastId(text).value;
      var r := AddToCart(s, user, text, quantity);
      && (r.0.Failed? <==> s.products[id].stock < AddedQuantity(quantity))
      && (!r.0.Failed? ==>
            && r.1.carts[user] == CartOf(s, user) + [Line(id, AddedQuantity(quantity))]
            && !NoDuplicates(r.1.carts[user]))
  {
    var id := CastId(text).value;
    var before := CartOf(s, user);
    assert !IsCanonicalId(text) by {
      if IsCanonicalId(text) {
        CastIdCanonical(text);
      }
    }
    assert FindLine(before, text).None?;
    var after := before + [Line(id, AddedQuantity(quantity))];
    assert after[i].product == after[|before|].product;
  }

  /** Dropping lines keeps every remaining line valid. */
  lemma FilterKeepsLinesValid(lines: seq<Line>, keep: Line -> bool)
    requires LinesValid(lines)
    ensures LinesValid(Filter(lines, keep))
  {
    var f := Filter(lines, keep);
    forall i | 0 <= i < |f|
      ensures IsCanonicalId(f[i].product) && f[i].quantity >= 1
    {
      assert f[i] in lines;
    }
  }

  /** DELETE /api/cart/remove. Every line whose stored id equals the
      request text is dropped (the text is compared as received, not
      cast); removing a product the cart does not hold still succeeds. */
  function RemoveFromCart(s: State, user: UserId, text: string): (r: (Response, State))
    ensures text == "" ==> r == (Failed(ProductIdRequired), s)
    ensures text != "" && user !in s.carts ==> r == (Failed(CartNotFound), s)
    ensures text != "" && user in s.carts ==>
      && r.0.CartSaved?
      && r.1 == s.(carts := s.carts[user := r.0.lines])
      && (forall l :: l in r.0.lines <==> l in s.carts[user] && l.product != text)
      && TotalItems(r.0.lines) == TotalItems(s.carts[user]) - QuantityOf(s.carts[user], text)
  {
    if text == "" then (Failed(ProductIdRequired), s)
    else if user !in s.carts then (Failed(CartNotFound), s)
    else
      var lines := s.carts[user];
      var kept := Filter(lines, NotFor(text));
      SplitByProduct(lines, text);
      (CartSaved(kept), s.(carts := s.carts[user := kept]))
  }

  /** Removing keeps the other lines in order: removing from a cart that
      is the concatenation of two parts removes from each part in place. */
  lemma RemoveInOrder(s: State, user: UserId, text: string, a: seq<Line>, b: seq<Line>)
    requires text != "" && user in s.carts && s.carts[user] == a + b
    ensures RemoveFromCart(s, user, text).0.lines == Filter(a, NotFor(text)) + Filter(b, NotFor(text))
  {
    FilterConcat(a, b, NotFor(text));
  }

  /** Removing a product the cart holds no line for saves the cart
      exactly as it was. */
  lemma RemoveAbsentKeepsCart(s: State, user: UserId, text: string)
    requires text != "" && user in s.carts
    requires forall i :: 0 <= i < |s.carts[user]| ==> s.carts[user][i].product != text
    ensures RemoveFromCart(s, user, text) == (CartSaved(s.carts[user]), s)
  {
    FilterKeepsAll(s.carts[user], NotFor(text));
    assert s.carts[user := s.carts[user]] == s.carts;
  }

  /** A cart's quantity splits into the lines for `pid` and the rest. */
  lemma {:induction false} SplitByProduct(lines: seq<Line>, pid: ProductId)
    ensures TotalItems(lines) == QuantityOf(lines, pid) + TotalItems(Filter(lines, NotFor(pid)))
  {
    if |lines| != 0 {
      SplitByProduct(lines[1..], pid);
      var l := lines[0];
      if l.product != pid {
        assert ([l] + Filter(lines[1..], NotFor(pid)))[1..] == Filter(lines[1..], NotFor(pid));
      }
    }
  }

  /** Removing the same product twice is the same as removing it once. */
  lemma RemoveFromCartIdempotent(s: State, user: UserId, text: string)
    ensures
      var s1 := RemoveFromCart(s, user, text).1;
      RemoveFromCart(s1, user, text) == RemoveFromCart(s, user, text)
  {
    if text != "" && user in s.carts {
      var kept := Filter(s.carts[user], NotFor(text));
      FilterIdempotent(s.carts[user], NotFor(text));
      var s1 := s.(carts := s.carts[user := kept]);
      assert RemoveFromCart(s, user, text) == (CartSaved(kept), s1);
      assert s1.carts[user := kept] == s1.carts;
      assert RemoveFromCart(s1, user, text) == (CartSaved(kept), s1);
    }
  }

  /** DELETE /api/cart/clear. The cart's lines become empty; nothing else
      changes. */
  function ClearCart(s: State, user: UserId): (r: (Response, State))
    ensures user !in s.carts ==> r == (Failed(CartNotFound), s)
    ensures user in s.carts ==>
      && r.0 == CartCleared
      && user in r.1.carts && r.1.carts[user] == []
      && r.1.products == s.products && r.1.orders == s.orders && r.1.cache == s.cache
      && (forall u :: u in s.carts && u != user ==> u in r.1.carts && r.1.carts[u] == s.carts[u])
      && r.1.carts.Keys == s.carts.Keys
  {
    if user !in s.carts then (Failed(CartNotFound), s)
    else (CartCleared, s.(carts := s.carts[user := []]))
  }
}
