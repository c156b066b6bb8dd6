/**
 * The cart table as a sequence of rows, and the queries the cart and
 * checkout handlers run over it: lookup by key, lookup by (user, product),
 * a user's lines, their money total, and the orders a checkout creates.
 */
module CartLines {
  import opened Records

  // ---------------------------------------------------------------------
  // Table invariant
  // ---------------------------------------------------------------------

  /** No two rows share a primary key. */
  ghost predicate DistinctIds(cart: seq<CartLine>) {
    forall i, j :: 0 <= i < j < |cart| ==> cart[i].id != cart[j].id
  }

  /** At most one row per (user, product): add-or-increment never duplicates. */
  ghost predicate UniquePairs(cart: seq<CartLine>) {
    forall i, j :: 0 <= i < j < |cart| ==>
      cart[i].user != cart[j].user || cart[i].product != cart[j].product
  }

  /** Every row's product exists, so its price can be read. */
  predicate Priced(cart: seq<CartLine>, products: map<ProductId, Product>) {
    forall l :: l in cart ==> l.product in products
  }

  /** Every row has a key below the next one handed out and a positive quantity. */
  ghost predicate RowsWellFormed(cart: seq<CartLine>, nextId: nat) {
    forall l :: l in cart ==> l.id < nextId && l.quantity >= 1
  }

  /**
   * What every cart handler keeps true: distinct keys below the next key
   * the table will hand out, one row per (user, product), a positive
   * quantity and an existing product on every row.
   */
  ghost predicate CartInvariant(cart: seq<CartLine>, nextId: nat, products: map<ProductId, Product>) {
    && DistinctIds(cart)
    && UniquePairs(cart)
    && Priced(cart, products)
    && RowsWellFormed(cart, nextId)
  }

  /** Two rows that may share a table: different keys, different (user, product). */
  ghost predicate Apart(a: CartLine, b: CartLine) {
    a.id != b.id && (a.user != b.user || a.product != b.product)
  }

  lemma TailApart(cart: seq<CartLine>)
    requires cart != [] && DistinctIds(cart) && UniquePairs(cart)
    ensures DistinctIds(cart[1..]) && UniquePairs(cart[1..])
    ensures forall l :: l in cart[1..] ==> Apart(cart[0], l)
  {
  }

  lemma ConsApart(x: CartLine, rest: seq<CartLine>)
    requires DistinctIds(rest) && UniquePairs(rest)
    requires forall l :: l in rest ==> Apart(x, l)
    ensures DistinctIds([x] + rest) && UniquePairs([x] + rest)
  {
    var r := [x] + rest;
    forall i, j | 0 <= i < j < |r|
      ensures r[i].id != r[j].id
      ensures r[i].user != r[j].user || r[i].product != r[j].product
    {
      assert r[j] == rest[j - 1] && r[j] in rest;
      if i > 0 { assert r[i] == rest[i - 1]; }
    }
  }

  // ---------------------------------------------------------------------
  // Lookups
  // ---------------------------------------------------------------------

  /** Position of the row with key `id`, the row `get_object_or_404(Cart, id=id)` returns. */
  function IndexOfId(cart: seq<CartLine>, id: CartId): (r: Option<nat>)
    ensures r.Some? ==> r.value < |cart| && cart[r.value].id == id
    ensures r.None? <==> forall k :: 0 <= k < |cart| ==> cart[k].id != id
  {
    if cart == [] then None
    else if cart[0].id == id then Some(0)
    else match IndexOfId(cart[1..], id)
      case None => None
      case Some(k) => Some(k + 1)
  }

  /** Position of the row for (user, product), if the filter on both columns finds one. */
  function LineFor(cart: seq<CartLine>, user: UserId, product: ProductId): (r: Option<nat>)
    ensures r.Some? ==> r.value < |cart| && cart[r.value].user == user && cart[r.value].product == product
    ensures r.None? <==> forall k :: 0 <= k < |cart| ==> cart[k].user != user || cart[k].product != product
  {
    if cart == [] then None
    else if cart[0].user == user && cart[0].product == product then Some(0)
    else match LineFor(cart[1..], user, product)
      case None => None
      case Some(k) => Some(k + 1)
  }

  /** The user's rows, in table order: `Cart.objects.filter(user=user)`. */
  function UserLines(cart: seq<CartLine>, user: UserId): (r: seq<CartLine>)
    ensures forall l :: l in r <==> l in cart && l.user == user
  {
    if cart == [] then []
    else if cart[0].user == user then [cart[0]] + UserLines(cart[1..], user)
    else UserLines(cart[1..], user)
  }

  /** The rows of every other user, in table order: what a checkout leaves behind. */
  function OthersLines(cart: seq<CartLine>, user: UserId): seq<CartLine> {
    if cart == [] then []
    else if cart[0].user != user then [cart[0]] + OthersLines(cart[1..], user)
    else OthersLines(cart[1..], user)
  }

  // ---------------------------------------------------------------------
  // Aggregates
  // ---------------------------------------------------------------------

  /** Total quantity the user holds of the product, over all rows. */
  function QuantityOf(cart: seq<CartLine>, user: UserId, product: ProductId): int {
    if cart == [] then 0
    else (if cart[0].user == user && cart[0].product == product then cart[0].quantity else 0)
         + QuantityOf(cart[1..], user, product)
  }

  /** quantity * price of one row. */
  function LineAmount(l: CartLine, products: map<ProductId, Product>): int
    requires l.product in products
  {
    l.quantity * products[l.product].price
  }

  /** What one row adds to the user's subtotal. */
  function Share(l: CartLine, products: map<ProductId, Product>, user: UserId): int
    requires l.product in products
  {
    if l.user == user then LineAmount(l, products) else 0
  }

  /** Sum of quantity * price over the user's rows. */
  function Subtotal(cart: seq<CartLine>, products: map<ProductId, Product>, user: UserId): int
    requires Priced(cart, products)
  {
    if cart == [] then 0
    else Share(cart[0], products, user) + Subtotal(cart[1..], products, user)
  }

  /** The orders a checkout creates from the user's rows, one per row, in table order. */
  function OrdersFrom(cart: seq<CartLine>, user: UserId, address: AddressId): seq<Order> {
    if cart == [] then []
    else (if cart[0].user == user then [Order(user, address, cart[0].product, cart[0].quantity)] else [])
         + OrdersFrom(cart[1..], user, address)
  }

  predicate OrdersPriced(orders: seq<Order>, products: map<ProductId, Product>) {
    forall o :: o in orders ==> o.product in products
  }

  /** Sum of quantity * price over a list of orders. */
  function OrdersTotal(orders: seq<Order>, products: map<ProductId, Product>): int
    requires OrdersPriced(orders, products)
  {
    if orders == [] then 0
    else orders[0].quantity * products[orders[0].product].price + OrdersTotal(orders[1..], products)
  }

  /** The products the user has in the cart. */
  function ProductsOf(cart: seq<CartLine>, user: UserId): set<ProductId> {
    set l | l in cart && l.user == user :: l.product
  }

  // ---------------------------------------------------------------------
  // Splitting the table
  // ---------------------------------------------------------------------

  lemma {:induction false} SubtotalConcat(a: seq<CartLine>, b: seq<CartLine>, products: map<ProductId, Product>, user: UserId)
    requires Priced(a, products) && Priced(b, products)
    ensures Priced(a + b, products)
    ensures Subtotal(a + b, products, user) == Subtotal(a, products, user) + Subtotal(b, products, user)
  {
    if a == [] {
      assert a + b == b;
    } else {
      assert (a + b)[1..] == a[1..] + b;
      SubtotalConcat(a[1..], b, products, user);
    }
  }

  lemma {:induction false} QuantityConcat(a: seq<CartLine>, b: seq<CartLine>, user: UserId, product: ProductId)
    ensures QuantityOf(a + b, user, product) == QuantityOf(a, user, product) + QuantityOf(b, user, product)
  {
    if a == [] {
      assert a + b == b;
    } else {
      assert (a + b)[1..] == a[1..] + b;
      QuantityConcat(a[1..], b, user, product);
    }
  }

  lemma {:induction false} OrdersFromConcat(a: seq<CartLine>, b: seq<CartLine>, user: UserId, address: AddressId)
    ensures OrdersFrom(a + b, user, address) == OrdersFrom(a, user, address) + OrdersFrom(b, user, address)
  {
    if a == [] {
      assert a + b == b;
    } else {
      assert (a + b)[1..] == a[1..] + b;
      OrdersFromConcat(a[1..], b, user, address);
    }
  }

  lemma {:induction false} OthersLinesConcat(a: seq<CartLine>, b: seq<CartLine>, user: UserId)
    ensures OthersLines(a + b, user) == OthersLines(a, user) + OthersLines(b, user)
  {
    if a == [] {
      assert a + b == b;
    } else {
      assert (a + b)[1..] == a[1..] + b;
      OthersLinesConcat(a[1..], b, user);
    }
  }

  // ---------------------------------------------------------------------
  // Quantities under one-row edits
  // ---------------------------------------------------------------------

  /** With one row per (user, product), the quantity held is that row's, or 0 without one. */
  lemma {:induction false} QuantityIsLineQuantity(cart: seq<CartLine>, user: UserId, product: ProductId)
    requires UniquePairs(cart)
    ensures QuantityOf(cart, user, product) ==
      match LineFor(cart, user, product)
      case Some(i) => cart[i].quantity
      case None => 0
  {
    if cart != [] {
      assert UniquePairs(cart[1..]) by {
        forall i, j | 0 <= i < j < |cart[1..]|
          ensures cart[1..][i].user != cart[1..][j].user || cart[1..][i].product != cart[1..][j].product
        {
          assert cart[1..][i] == cart[i + 1] && cart[1..][j] == cart[j + 1];
        }
      }
      QuantityIsLineQuantity(cart[1..], user, product);
      if cart[0].user == user && cart[0].product == product {
        assert LineFor(cart[1..], user, product).None? by {
          forall k | 0 <= k < |cart[1..]|
            ensures cart[1..][k].user != user || cart[1..][k].product != product
          {
            assert cart[1..][k] == cart[k + 1];
          }
        }
      }
    }
  }

  /** Replacing row i changes the quantity held by exactly the difference of the two rows. */
  lemma QuantityAfterReplace(cart: seq<CartLine>, i: nat, l: CartLine, user: UserId, product: ProductId)
    requires i < |cart|
    ensures QuantityOf(cart[i := l], user, product) ==
      QuantityOf(cart, user, product)
      - QuantityOf([cart[i]], user, product) + QuantityOf([l], user, product)
  {
    assert cart == cart[..i] + [cart[i]] + cart[i + 1..];
    assert cart[i := l] == cart[..i] + [l] + cart[i + 1..];
    QuantityConcat(cart[..i] + [cart[i]], cart[i + 1..], user, product);
    QuantityConcat(cart[..i], [cart[i]], user, product);
    QuantityConcat(cart[..i] + [l], cart[i + 1..], user, product);
    QuantityConcat(cart[..i], [l], user, product);
  }

  /** Deleting row i removes exactly that row's quantity. */
  lemma QuantityAfterDelete(cart: seq<CartLine>, i: nat, user: UserId, product: ProductId)
    requires i < |cart|
    ensures QuantityOf(cart[..i] + cart[i + 1..], user, product) ==
      QuantityOf(cart, user, product) - QuantityOf([cart[i]], user, product)
  {
    assert cart == cart[..i] + [cart[i]] + cart[i + 1..];
    QuantityConcat(cart[..i] + [cart[i]], cart[i + 1..], user, product);
    QuantityConcat(cart[..i], [cart[i]], user, product);
    QuantityConcat(cart[..i], cart[i + 1..], user, product);
  }

  // ---------------------------------------------------------------------
  // Subtotals under one-row edits
  // ---------------------------------------------------------------------

  /** Replacing row i changes every user's subtotal by the difference of the two rows' shares. */
  lemma SubtotalAfterReplace(cart: seq<CartLine>, i: nat, l: CartLine, products: map<ProductId, Product>, user: UserId)
    requires Priced(cart, products) && i < |cart| && l.product in products
    ensures Priced(cart[i := l], products)
    ensures Subtotal(cart[i := l], products, user) ==
      Subtotal(cart, products, user) - Share(cart[i], products, user) + Share(l, products, user)
  {
    var pre, post := cart[..i], cart[i + 1..];
    assert cart == pre + [cart[i]] + post;
    assert cart[i := l] == pre + [l] + post;
    assert Priced(pre, products) && Priced(post, products);
    SubtotalConcat(pre, [cart[i]], products, user);
    SubtotalConcat(pre + [cart[i]], post, products, user);
    SubtotalConcat(pre, [l], products, user);
    SubtotalConcat(pre + [l], post, products, user);
  }

  /** Deleting row i lowers the owner's subtotal by that row's amount and no one else's. */
  lemma SubtotalAfterDelete(cart: seq<CartLine>, i: nat, products: map<ProductId, Product>, user: UserId)
    requires Priced(cart, products) && i < |cart|
    ensures Priced(cart[..i] + cart[i + 1..], products)
    ensures Subtotal(cart[..i] + cart[i + 1..], products, user) ==
      Subtotal(cart, products, user) - Share(cart[i], products, user)
  {
    var pre, post := cart[..i], cart[i + 1..];
    assert cart == pre + [cart[i]] + post;
    assert Priced(pre, products) && Priced(post, products);
    SubtotalConcat(pre, [cart[i]], products, user);
    SubtotalConcat(pre + [cart[i]], post, products, user);
    SubtotalConcat(pre, post, products, user);
  }

  /** Raising a row's quantity by one raises its owner's subtotal by the product's price. */
  lemma SubtotalAfterIncrement(cart: seq<CartLine>, i: nat, products: map<ProductId, Product>, user: UserId)
    requires Priced(cart, products) && i < |cart|
    ensures Priced(cart[i := cart[i].(quantity := cart[i].quantity + 1)], products)
    ensures Subtotal(cart[i := cart[i].(quantity := cart[i].quantity + 1)], products, user) ==
      Subtotal(cart, products, user) + (if cart[i].user == user then products[cart[i].product].price else 0)
  {
    var l := cart[i].(quantity := cart[i].quantity + 1);
    SubtotalAfterReplace(cart, i, l, products, user);
    assert LineAmount(l, products) == LineAmount(cart[i], products) + products[cart[i].product].price;
  }

  /** Lowering a row's quantity by one lowers its owner's subtotal by the product's price. */
  lemma SubtotalAfterDecrement(cart: seq<CartLine>, i: nat, products: map<ProductId, Product>, user: UserId)
    requires Priced(cart, products) && i < |cart|
    ensures Priced(cart[i := cart[i].(quantity := cart[i].quantity - 1)], products)
    ensures Subtotal(cart[i := cart[i].(quantity := cart[i].quantity - 1)], products, user) ==
      Subtotal(cart, products, user) - (if cart[i].user == user then products[cart[i].product].price else 0)
  {
    var l := cart[i].(quantity := cart[i].quantity - 1);
    SubtotalAfterReplace(cart, i, l, products, user);
    assert LineAmount(cart[i], products) == LineAmount(l, products) + products[cart[i].product].price;
  }

  /** A new row adds its amount to its owner's subtotal and nothing to anyone else's. */
  lemma SubtotalAfterAppend(cart: seq<CartLine>, l: CartLine, products: map<ProductId, Product>, user: UserId)
    requires Priced(cart, products) && l.product in products
    ensures Priced(cart + [l], products)
    ensures Subtotal(cart + [l], products, user) == Subtotal(cart, products, user) + Share(l, products, user)
  {
    SubtotalConcat(cart, [l], products, user);
  }

  // ---------------------------------------------------------------------
  // Whose rows count
  // ---------------------------------------------------------------------

  /** The subtotal reads only the requesting user's rows. */
  lemma {:induction false} SubtotalOfOwnLines(cart: seq<CartLine>, products: map<ProductId, Product>, user: UserId)
    requires Priced(cart, products)
    ensures Priced(UserLines(cart, user), products)
    ensures Subtotal(cart, products, user) == Subtotal(UserLines(cart, user), products, user)
  {
    if cart != [] {
      SubtotalOfOwnLines(cart[1..], products, user);
    }
  }

  /** A user without rows has subtotal 0. */
  lemma {:induction false} SubtotalOfEmptyCart(cart: seq<CartLine>, products: map<ProductId, Product>, user: UserId)
    requires Priced(cart, products)
    requires forall k :: 0 <= k < |cart| ==> cart[k].user != user
    ensures Subtotal(cart, products, user) == 0
  {
    if cart != [] {
      SubtotalOfEmptyCart(cart[1..], products, user);
    }
  }

  /** After removing the user's rows the user has none left, and everyone else keeps theirs. */
  lemma {:induction false} OthersLinesByUser(cart: seq<CartLine>, user: UserId, other: UserId)
    ensures UserLines(OthersLines(cart, user), user) == []
    ensures other != user ==> UserLines(OthersLines(cart, user), other) == UserLines(cart, other)
  {
    if cart != [] {
      OthersLinesByUser(cart[1..], user, other);
    }
  }

  // ---------------------------------------------------------------------
  // Checkout: rows into orders
  // ---------------------------------------------------------------------

  /**
   * One step of the checkout loop over `lines`: with the first k rows
   * visited, the table is the other users' rows among them followed by the
   * unvisited rows, so row k sits right after the kept ones.  Visiting it
   * either creates its order and deletes it, or keeps it.
   */
  lemma CheckoutStep(lines: seq<CartLine>, k: nat, user: UserId, address: AddressId)
    requires k < |lines|
    ensures OrdersFrom(lines[..k + 1], user, address) ==
      OrdersFrom(lines[..k], user, address)
      + (if lines[k].user == user then [Order(user, address, lines[k].product, lines[k].quantity)] else [])
    ensures
      var kept := OthersLines(lines[..k], user);
      var c := kept + lines[k..];
      && |kept| < |c| && c[|kept|] == lines[k]
      && (lines[k].user == user ==>
            c[..|kept|] + c[|kept| + 1..] == OthersLines(lines[..k + 1], user) + lines[k + 1..]
            && |OthersLines(lines[..k + 1], user)| == |kept|)
      && (lines[k].user != user ==>
            c == OthersLines(lines[..k + 1], user) + lines[k + 1..]
            && |OthersLines(lines[..k + 1], user)| == |kept| + 1)
  {
    assert lines[..k + 1] == lines[..k] + [lines[k]];
    OrdersFromConcat(lines[..k], [lines[k]], user, address);
    OthersLinesConcat(lines[..k], [lines[k]], user);
    var kept := OthersLines(lines[..k], user);
    var c := kept + lines[k..];
    assert lines[k..] == [lines[k]] + lines[k + 1..];
    if lines[k].user == user {
      assert c[..|kept|] == kept && c[|kept| + 1..] == lines[k + 1..];
    } else {
      assert c == (kept + [lines[k]]) + lines[k + 1..];
    }
  }

  /**
   * The checkout loop.  It walks every row of the table `lines` in key
   * order and passes over other users' rows; at each of the user's rows it
   * creates the order and then deletes the row.  The rows it acts on are
   * exactly `Cart.objects.filter(user=user)`, in the same order, so this is
   * the handler's loop over that queryset.  Returns the rows left and the
   * orders created, in creation order.
   */
  method CheckoutRows(lines: seq<CartLine>, user: UserId, address: AddressId)
    returns (kept: seq<CartLine>, created: seq<Order>)
    ensures kept == OthersLines(lines, user)
    ensures created == OrdersFrom(lines, user, address)
  {
    var rows := lines;  // the table as the loop leaves it
    created := [];
    var pos := 0;       // rows of other users passed so far; the row being visited sits at rows[pos]
    for k := 0 to |lines|
      invariant rows == OthersLines(lines[..k], user) + lines[k..]
      invariant pos == |OthersLines(lines[..k], user)|
      invariant created == OrdersFrom(lines[..k], user, address)
    {
      CheckoutStep(lines, k, user, address);
      if lines[k].user == user {
        created := created + [Order(user, address, lines[k].product, lines[k].quantity)];
        rows := rows[..pos] + rows[pos + 1..];
      } else {
        pos := pos + 1;
      }
    }
    assert lines[..|lines|] == lines && lines[|lines|..] == [];
    kept := rows;
  }

  /** One order per row of the user, in the same order, with that row's product and quantity. */
  lemma {:induction false} OrdersMatchUserLines(cart: seq<CartLine>, user: UserId, address: AddressId)
    ensures |OrdersFrom(cart, user, address)| == |UserLines(cart, user)|
    ensures forall k :: 0 <= k < |UserLines(cart, user)| ==>
      OrdersFrom(cart, user, address)[k] ==
        Order(user, address, UserLines(cart, user)[k].product, UserLines(cart, user)[k].quantity)
  {
    if cart != [] {
      OrdersMatchUserLines(cart[1..], user, address);
    }
  }

  /** Every created order has a product that exists. */
  lemma {:induction false} OrdersFromPriced(cart: seq<CartLine>, products: map<ProductId, Product>, user: UserId, address: AddressId)
    requires Priced(cart, products)
    ensures OrdersPriced(OrdersFrom(cart, user, address), products)
  {
    if cart != [] {
      OrdersFromPriced(cart[1..], products, user, address);
    }
  }

  /** The money in the created orders is the user's cart subtotal. */
  lemma {:induction false} OrdersTotalIsSubtotal(cart: seq<CartLine>, products: map<ProductId, Product>, user: UserId, address: AddressId)
    requires Priced(cart, products)
    ensures OrdersPriced(OrdersFrom(cart, user, address), products)
    ensures OrdersTotal(OrdersFrom(cart, user, address), products) == Subtotal(cart, products, user)
  {
    OrdersFromPriced(cart, products, user, address);
    if cart != [] {
      OrdersTotalIsSubtotal(cart[1..], products, user, address);
      var head := if cart[0].user == user then [Order(user, address, cart[0].product, cart[0].quantity)] else [];
      var tail := OrdersFrom(cart[1..], user, address);
      assert OrdersFrom(cart, user, address) == head + tail;
      OrdersTotalConcat(head, tail, products);
    }
  }

  lemma {:induction false} OrdersTotalConcat(a: seq<Order>, b: seq<Order>, products: map<ProductId, Product>)
    requires OrdersPriced(a, products) && OrdersPriced(b, products)
    ensures OrdersPriced(a + b, products)
    ensures OrdersTotal(a + b, products) == OrdersTotal(a, products) + OrdersTotal(b, products)
  {
    if a == [] {
      assert a + b == b;
    } else {
      assert (a + b)[1..] == a[1..] + b;
      OrdersTotalConcat(a[1..], b, products);
    }
  }

  /** With one row per (user, product), a checkout creates one order per distinct product in the cart. */
  lemma {:induction false} OrderCountIsProductCount(cart: seq<CartLine>, user: UserId, address: AddressId)
    requires UniquePairs(cart)
    ensures |OrdersFrom(cart, user, address)| == |ProductsOf(cart, user)|
  {
    if cart == [] {
      assert ProductsOf(cart, user) == {};
    } else {
      var rest := cart[1..];
      assert UniquePairs(rest) by {
        forall i, j | 0 <= i < j < |rest|
          ensures rest[i].user != rest[j].user || rest[i].product != rest[j].product
        {
          assert rest[i] == cart[i + 1] && rest[j] == cart[j + 1];
        }
      }
      OrderCountIsProductCount(rest, user, address);
      if cart[0].user == user {
        assert ProductsOf(cart, user) == {cart[0].product} + ProductsOf(rest, user) by {
          forall p | p in ProductsOf(cart, user) ensures p in {cart[0].product} + ProductsOf(rest, user) {
            var l :| l in cart && l.user == user && l.product == p;
            if l != cart[0] { assert l in rest; }
          }
        }
        assert cart[0].product !in ProductsOf(rest, user);
      } else {
        assert ProductsOf(cart, user) == ProductsOf(rest, user) by {
          forall p | p in ProductsOf(cart, user) ensures p in ProductsOf(rest, user) {
            var l :| l in cart && l.user == user && l.product == p;
            assert l in rest;
          }
        }
      }
    }
  }

  // ---------------------------------------------------------------------
  // The invariant under each edit
  // ---------------------------------------------------------------------

  /** Changing only a row's quantity, to a positive one, keeps the invariant. */
  lemma ReplaceQuantityKeepsInvariant(cart: seq<CartLine>, nextId: nat, products: map<ProductId, Product>, i: nat, q: int)
    requires CartInvariant(cart, nextId, products) && i < |cart| && q >= 1
    ensures CartInvariant(cart[i := cart[i].(quantity := q)], nextId, products)
  {
  }

  /** Deleting a row keeps the invariant. */
  lemma DeleteKeepsInvariant(cart: seq<CartLine>, nextId: nat, products: map<ProductId, Product>, i: nat)
    requires CartInvariant(cart, nextId, products) && i < |cart|
    ensures CartInvariant(cart[..i] + cart[i + 1..], nextId, products)
  {
  }

  /** A new row with the next key, for a (user, product) not yet in the cart, keeps the invariant. */
  lemma AppendKeepsInvariant(cart: seq<CartLine>, nextId: nat, products: map<ProductId, Product>, l: CartLine)
    requires CartInvariant(cart, nextId, products)
    requires l.id == nextId && l.quantity >= 1 && l.product in products
    requires LineFor(cart, l.user, l.product).None?
    ensures CartInvariant(cart + [l], nextId + 1, products)
  {
  }

  /** The rows left behind are exactly the other users' rows. */
  lemma {:induction false} OthersLinesMembers(cart: seq<CartLine>, user: UserId)
    ensures forall l :: l in OthersLines(cart, user) <==> l in cart && l.user != user
  {
    if cart != [] {
      OthersLinesMembers(cart[1..], user);
    }
  }

  /** Dropping one user's rows keeps the invariant. */
  lemma {:induction false} OthersKeepInvariant(cart: seq<CartLine>, nextId: nat, products: map<ProductId, Product>, user: UserId)
    requires CartInvariant(cart, nextId, products)
    ensures CartInvariant(OthersLines(cart, user), nextId, products)
  {
    if cart != [] {
      TailApart(cart);
      OthersKeepInvariant(cart[1..], nextId, products, user);
      OthersLinesMembers(cart[1..], user);
      if cart[0].user != user {
        ConsApart(cart[0], OthersLines(cart[1..], user));
      }
    }
  }
}
