/**
 * The shop's tables as one object, and the view handlers as methods that
 * change them.  The requesting user is an explicit parameter; a handler's
 * HTTP outcome (a redirect, a 404, an uncaught exception) is its Outcome.
 */
module Store {
  import opened Records
  import opened CartLines
  import Sku

  /** The user's wishlist products, or none when the user has no wishlist row. */
  function WishlistOf(wishlists: map<UserId, set<ProductId>>, user: UserId): set<ProductId> {
    if user in wishlists then wishlists[user] else {}
  }

  class Shop {
    /** Cart rows, in table order. */
    var cart: seq<CartLine>
    /** The key the cart table hands out next. */
    var nextCartId: nat
    /** Order rows, in creation order. */
    var orders: seq<Order>
    var products: map<ProductId, Product>
    /** Address rows: key to owning user. */
    var addresses: map<AddressId, UserId>
    /** Wishlist rows: at most one per user, each a set of products. */
    var wishlists: map<UserId, set<ProductId>>
    /** Subscription emails; the column is unique. */
    var subscriptions: set<string>

    ghost predicate Valid()
      reads this
    {
      CartInvariant(cart, nextCartId, products)
    }

    constructor (products: map<ProductId, Product>, addresses: map<AddressId, UserId>)
      ensures Valid()
      ensures this.products == products && this.addresses == addresses
      ensures cart == [] && nextCartId == 0 && orders == [] && wishlists == map[] && subscriptions == {}
    {
      this.products := products;
      this.addresses := addresses;
      cart := [];
      nextCartId := 0;
      orders := [];
      wishlists := map[];
      subscriptions := {};
    }

    // -------------------------------------------------------------------
    // Cart manager
    // -------------------------------------------------------------------

    /**
     * add_to_cart: NotFound for an unknown product; otherwise the user's row
     * for the product gains one, or a new row with the default quantity is
     * created when there is none.
     */
    method AddToCart(user: UserId, product: ProductId) returns (r: Outcome)
      requires Valid()
      modifies this
      ensures Valid()
      ensures r == (if product in old(products) then Done else Failed(NotFound))
      ensures r.Failed? ==> cart == old(cart) && nextCartId == old(nextCartId)
      ensures r.Done? && LineFor(old(cart), user, product).Some? ==>
        var i := LineFor(old(cart), user, product).value;
        cart == old(cart)[i := old(cart)[i].(quantity := old(cart)[i].quantity + 1)]
        && nextCartId == old(nextCartId)
      ensures r.Done? && LineFor(old(cart), user, product).None? ==>
        cart == old(cart) + [CartLine(old(nextCartId), user, product, DefaultQuantity)]
        && nextCartId == old(nextCartId) + 1
      ensures forall u, p ::
                QuantityOf(cart, u, p) == old(QuantityOf(cart, u, p)) + (if r.Done? && u == user && p == product then 1 else 0)
      ensures orders == old(orders) && products == old(products) && addresses == old(addresses)
      ensures wishlists == old(wishlists) && subscriptions == old(subscriptions)
    {
      if product !in products {
        return Failed(NotFound);
      }
      var before := cart;
      match LineFor(cart, user, product) {
        case Some(i) =>
          cart := cart[i := cart[i].(quantity := cart[i].quantity + 1)];
          ReplaceQuantityKeepsInvariant(before, nextCartId, products, i, before[i].quantity + 1);
          forall u, p ensures QuantityOf(cart, u, p) == QuantityOf(before, u, p) + (if u == user && p == product then 1 else 0) {
            QuantityAfterReplace(before, i, cart[i], u, p);
          }
        case None =>
          var line := CartLine(nextCartId, user, product, DefaultQuantity);
          AppendKeepsInvariant(cart, nextCartId, products, line);
          cart := cart + [line];
          nextCartId := nextCartId + 1;
          forall u, p ensures QuantityOf(cart, u, p) == QuantityOf(before, u, p) + (if u == user && p == product then 1 else 0) {
            QuantityConcat(before, [line], u, p);
          }
      }
      return Done;
    }

    /**
     * The cart page's figures: the subtotal over the user's rows, the fixed
     * shipping charge and their sum.
     */
    method CartTotals(user: UserId) returns (amount: int, shipping: int, total: int)
      requires Priced(cart, products)
      ensures amount == Subtotal(cart, products, user)
      ensures shipping == ShippingAmount
      ensures total == amount + ShippingAmount
    {
      amount := 0;
      shipping := ShippingAmount;
      for k := 0 to |cart|
        invariant amount == Subtotal(cart[..k], products, user)
      {
        assert cart[..k + 1] == cart[..k] + [cart[k]];
        SubtotalConcat(cart[..k], [cart[k]], products, user);
        if cart[k].user == user {
          amount := amount + cart[k].quantity * products[cart[k].product].price;
        }
      }
      assert cart[..|cart|] == cart;
      total := amount + shipping;
    }

    /**
     * remove_cart: on a GET, deletes the row with that key, whoever owns it;
     * NotFound when there is none.  Other methods change nothing.
     */
    method RemoveCart(isGet: bool, id: CartId) returns (r: Outcome)
      requires Valid()
      modifies this
      ensures Valid()
      ensures r == (if isGet && IndexOfId(old(cart), id).None? then Failed(NotFound) else Done)
      ensures !isGet || r.Failed? ==> cart == old(cart)
      ensures isGet && r.Done? ==>
        var i := IndexOfId(old(cart), id).value;
        cart == old(cart)[..i] + old(cart)[i + 1..]
      ensures nextCartId == old(nextCartId) && orders == old(orders) && products == old(products)
      ensures addresses == old(addresses) && wishlists == old(wishlists) && subscriptions == old(subscriptions)
    {
      if !isGet {
        return Done;
      }
      match IndexOfId(cart, id) {
        case None =>
          return Failed(NotFound);
        case Some(i) =>
          DeleteKeepsInvariant(cart, nextCartId, products, i);
          cart := cart[..i] + cart[i + 1..];
          return Done;
      }
    }

    /**
     * plus_cart: on a GET, the row with that key, whoever owns it, gains one;
     * NotFound when there is none.  Other methods change nothing.
     */
    method PlusCart(isGet: bool, id: CartId) returns (r: Outcome)
      requires Valid()
      modifies this
      ensures Valid()
      ensures r == (if isGet && IndexOfId(old(cart), id).None? then Failed(NotFound) else Done)
      ensures !isGet || r.Failed? ==> cart == old(cart)
      ensures isGet && r.Done? ==>
        var i := IndexOfId(old(cart), id).value;
        cart == old(cart)[i := old(cart)[i].(quantity := old(cart)[i].quantity + 1)]
      ensures nextCartId == old(nextCartId) && orders == old(orders) && products == old(products)
      ensures addresses == old(addresses) && wishlists == old(wishlists) && subscriptions == old(subscriptions)
    {
      if !isGet {
        return Done;
      }
      match IndexOfId(cart, id) {
        case None =>
          return Failed(NotFound);
        case Some(i) =>
          ReplaceQuantityKeepsInvariant(cart, nextCartId, products, i, cart[i].quantity + 1);
          cart := cart[i := cart[i].(quantity := cart[i].quantity + 1)];
          return Done;
      }
    }

    /**
     * minus_cart: on a GET, the row with that key, whoever owns it, is
     * deleted when its quantity is 1 and loses one otherwise; NotFound when
     * there is none.  Other methods change nothing.
     */
    method MinusCart(isGet: bool, id: CartId) returns (r: Outcome)
      requires Valid()
      modifies this
      ensures Valid()
      ensures r == (if isGet && IndexOfId(old(cart), id).None? then Failed(NotFound) else Done)
      ensures !isGet || r.Failed? ==> cart == old(cart)
      ensures isGet && r.Done? ==>
        var i := IndexOfId(old(cart), id).value;
        if old(cart)[i].quantity == 1 then cart == old(cart)[..i] + old(cart)[i + 1..]
        else cart == old(cart)[i := old(cart)[i].(quantity := old(cart)[i].quantity - 1)]
      ensures nextCartId == old(nextCartId) && orders == old(orders) && products == old(products)
      ensures addresses == old(addresses) && wishlists == old(wishlists) && subscriptions == old(subscriptions)
    {
      if !isGet {
        return Done;
      }
      match IndexOfId(cart, id) {
        case None =>
          return Failed(NotFound);
        case Some(i) =>
          if cart[i].quantity == 1 {
            DeleteKeepsInvariant(cart, nextCartId, products, i);
            cart := cart[..i] + cart[i + 1..];
          } else {
            ReplaceQuantityKeepsInvariant(cart, nextCartId, products, i, cart[i].quantity - 1);
            cart := cart[i := cart[i].(quantity := cart[i].quantity - 1)];
          }
          return Done;
      }
    }

    // -------------------------------------------------------------------
    // Checkout
    // -------------------------------------------------------------------

    /**
     * checkout (a valid POST): NotFound, with nothing changed, when the
     * address key does not exist (its owner is not checked); otherwise one
     * order per row of the user, in table order, each row deleted after its
     * order is created.
     */
    method Checkout(user: UserId, address: AddressId) returns (r: Outcome)
      requires Valid()
      modifies this
      ensures Valid()
      ensures r == (if address in old(addresses) then Done else Failed(NotFound))
      ensures r.Failed? ==> cart == old(cart) && orders == old(orders)
      ensures r.Done? ==> orders == old(orders) + OrdersFrom(old(cart), user, address)
      ensures r.Done? ==> cart == OthersLines(old(cart), user)
      ensures nextCartId == old(nextCartId) && products == old(products) && addresses == old(addresses)
      ensures wishlists == old(wishlists) && subscriptions == old(subscriptions)
    {
      if address !in addresses {
        return Failed(NotFound);
      }
      var kept, created := CheckoutRows(cart, user, address);
      OthersKeepInvariant(cart, nextCartId, products, user);
      cart, orders := kept, orders + created;
      return Done;
    }

    // -------------------------------------------------------------------
    // Wishlist
    // -------------------------------------------------------------------

    /**
     * add_to_wishlist: NotFound for an unknown product; otherwise the user's
     * wishlist, created if absent, holds the product, and the product's
     * popularity rises by one on every call, repeats included.
     */
    method AddToWishlist(user: UserId, product: ProductId) returns (r: Outcome)
      requires Valid()
      modifies this
      ensures Valid()
      ensures r == (if product in old(products) then Done else Failed(NotFound))
      ensures r.Failed? ==> wishlists == old(wishlists) && products == old(products)
      ensures r.Done? ==> wishlists == old(wishlists)[user := WishlistOf(old(wishlists), user) + {product}]
      ensures r.Done? ==>
        products == old(products)[product := old(products)[product].(popularity := old(products)[product].popularity + 1)]
      ensures cart == old(cart) && nextCartId == old(nextCartId) && orders == old(orders)
      ensures addresses == old(addresses) && subscriptions == old(subscriptions)
    {
      if product !in products {
        return Failed(NotFound);
      }
      var items := if user in wishlists then wishlists[user] else {};
      wishlists := wishlists[user := items + {product}];
      products := products[product := products[product].(popularity := products[product].popularity + 1)];
      return Done;
    }

    /**
     * remove_from_wishlist: NotFound for an unknown product, DoesNotExist
     * when the user has no wishlist; otherwise the product leaves the set,
     * a no-op when it was not in it.
     */
    method RemoveFromWishlist(user: UserId, product: ProductId) returns (r: Outcome)
      requires Valid()
      modifies this
      ensures Valid()
      ensures r == (if product !in old(products) then Failed(NotFound)
                    else if user !in old(wishlists) then Failed(DoesNotExist)
                    else Done)
      ensures r.Failed? ==> wishlists == old(wishlists)
      ensures r.Done? ==> wishlists == old(wishlists)[user := old(wishlists)[user] - {product}]
      ensures cart == old(cart) && nextCartId == old(nextCartId) && orders == old(orders) && products == old(products)
      ensures addresses == old(addresses) && subscriptions == old(subscriptions)
    {
      if product !in products {
        return Failed(NotFound);
      }
      if user !in wishlists {
        return Failed(DoesNotExist);
      }
      wishlists := wishlists[user := wishlists[user] - {product}];
      return Done;
    }

    /** view_wishlist: the user's wishlist products; DoesNotExist when the user has none. */
    method ViewWishlist(user: UserId) returns (r: Result<set<ProductId>>)
      ensures r.Err? <==> user !in wishlists
      ensures r.Err? ==> r.error == DoesNotExist
      ensures r.Ok? ==> r.value == wishlists[user]
    {
      if user !in wishlists {
        return Err(DoesNotExist);
      }
      return Ok(wishlists[user]);
    }

    // -------------------------------------------------------------------
    // Subscription
    // -------------------------------------------------------------------

    /** subscribe (a valid POST): the email is added, or Conflict when it is already there. */
    method Subscribe(email: string) returns (r: Outcome)
      requires Valid()
      modifies this
      ensures Valid()
      ensures r == (if email in old(subscriptions) then Failed(Conflict) else Done)
      ensures subscriptions == old(subscriptions) + {email}
      ensures cart == old(cart) && nextCartId == old(nextCartId) && orders == old(orders) && products == old(products)
      ensures addresses == old(addresses) && wishlists == old(wishlists)
    {
      if email in subscriptions {
        return Failed(Conflict);
      }
      subscriptions := subscriptions + {email};
      return Done;
    }

    // -------------------------------------------------------------------
    // Admin: ProductAdmin.save_model
    // -------------------------------------------------------------------

    /**
     * ProductAdmin.save_model: saves `p` under key `id` with the SKU
     * AssignSku gives, where `top` is the product order_by('-sku').first()
     * returns under the column's ordering `above` (None on an empty table).
     * When that product's SKU does not read as a number the save fails with
     * ValueError and nothing is stored.
     */
    method SaveProduct(id: ProductId, p: Product, top: Option<ProductId>, ghost above: (string, string) -> bool)
      returns (r: Outcome)
      requires Valid()
      requires top.None? <==> products == map[]
      requires top.Some? ==> Sku.IsFirstBySku(products, top.value, above)
      modifies this
      ensures Valid()
      ensures
        var topSku := if top.Some? then Some(old(products)[top.value].sku) else None;
        match Sku.AssignSku(p.sku, topSku)
        case Ok(s) => r == Done && products == old(products)[id := p.(sku := s)]
        case Err(e) => r == Failed(e) && products == old(products)
      ensures cart == old(cart) && nextCartId == old(nextCartId) && orders == old(orders)
      ensures addresses == old(addresses) && wishlists == old(wishlists) && subscriptions == old(subscriptions)
    {
      var sku := p.sku;
      if sku == "" {
        match top {
          case None =>
            sku := "1";
          case Some(t) =>
            match Sku.ParseInt(products[t].sku) {
              case None =>
                return Failed(ValueError);
              case Some(v) =>
                sku := Sku.ToDecimal(v + 1);
            }
        }
      }
      products := products[id := p.(sku := sku)];
      return Done;
    }
  }
}
