/**
 * Clients of Store.Shop: request sequences whose outcomes follow from the
 * handlers' contracts alone.
 */
module Scenarios {
  import opened Records
  import opened CartLines
  import opened Store
  import Sku

  /** Adding the same product twice leaves one row, with quantity 2. */
  method AddTwiceMakesOneLine(price: int) {
    var shop := new Shop(map[7 := Product(price, 0, true, 1, "7")], map[]);
    var r1 := shop.AddToCart(1, 7);
    var r2 := shop.AddToCart(1, 7);
    assert r1 == Done && r2 == Done;
    assert |shop.cart| == 1 && shop.cart[0].quantity == 2;
    assert QuantityOf(shop.cart, 1, 7) == 2;
    var amount, shipping, total := shop.CartTotals(1);
    assert amount == 2 * price && total == 2 * price + ShippingAmount;
  }

  /** An unknown product is not added; an empty cart totals the shipping charge alone. */
  method UnknownProductIsNotAdded() {
    var shop := new Shop(map[], map[]);
    var r := shop.AddToCart(1, 7);
    assert r == Failed(NotFound) && shop.cart == [];
    var amount, shipping, total := shop.CartTotals(1);
    assert amount == 0 && total == ShippingAmount;
  }

  /** Decrementing a quantity-1 row deletes it. */
  method MinusOnSingleDeletes() {
    var shop := new Shop(map[7 := Product(500, 0, true, 1, "7")], map[]);
    var _ := shop.AddToCart(1, 7);
    var id := shop.cart[0].id;
    var r := shop.MinusCart(true, id);
    assert r == Done && shop.cart == [];
  }

  /** The three-row cart of CheckoutTwoProducts: user 1's rows become orders, user 2's row stays. */
  lemma ThreeRowCheckout()
    ensures OrdersFrom([CartLine(0, 1, 7, 1), CartLine(1, 2, 7, 1), CartLine(2, 1, 8, 1)], 1, 3)
      == [Order(1, 3, 7, 1), Order(1, 3, 8, 1)]
    ensures OthersLines([CartLine(0, 1, 7, 1), CartLine(1, 2, 7, 1), CartLine(2, 1, 8, 1)], 1)
      == [CartLine(1, 2, 7, 1)]
  {
    var lines := [CartLine(0, 1, 7, 1), CartLine(1, 2, 7, 1), CartLine(2, 1, 8, 1)];
    assert lines[1..] == [CartLine(1, 2, 7, 1), CartLine(2, 1, 8, 1)];
    assert lines[1..][1..] == [CartLine(2, 1, 8, 1)];
  }

  /** Checkout turns each of the user's rows into an order and leaves other users' rows. */
  method CheckoutTwoProducts() {
    var shop := new Shop(map[7 := Product(500, 0, true, 1, "7"), 8 := Product(250, 0, true, 1, "8")], map[3 := 1]);
    var _ := shop.AddToCart(1, 7);
    assert shop.cart == [CartLine(0, 1, 7, 1)];
    var _ := shop.AddToCart(2, 7);
    assert shop.cart == [CartLine(0, 1, 7, 1), CartLine(1, 2, 7, 1)];
    var _ := shop.AddToCart(1, 8);
    assert shop.cart == [CartLine(0, 1, 7, 1), CartLine(1, 2, 7, 1), CartLine(2, 1, 8, 1)];
    ThreeRowCheckout();
    var r := shop.Checkout(1, 3);
    assert r == Done;
    assert shop.orders == [Order(1, 3, 7, 1), Order(1, 3, 8, 1)];
    assert shop.cart == [CartLine(1, 2, 7, 1)];
  }

  /** A second subscription with the same email is refused; the email is stored once. */
  method SubscribeTwice(email: string) {
    var shop := new Shop(map[], map[]);
    var r1 := shop.Subscribe(email);
    var r2 := shop.Subscribe(email);
    assert r1 == Done && r2 == Failed(Conflict);
    assert shop.subscriptions == {email};
  }

  /** Adding a product to the wishlist twice keeps one entry but counts popularity twice. */
  method WishlistTwice() {
    var shop := new Shop(map[7 := Product(500, 4, true, 1, "7")], map[]);
    var _ := shop.AddToWishlist(1, 7);
    var _ := shop.AddToWishlist(1, 7);
    assert shop.wishlists[1] == {7};
    assert shop.products[7].popularity == 6;
    var r := shop.RemoveFromWishlist(1, 8);
    assert r == Failed(NotFound);
    var v := shop.ViewWishlist(2);
    assert v == Err(DoesNotExist);
  }

  /** With no products the first SKU is "1"; after a product with SKU "7" the next is "8". */
  method SkuSequence(above: (string, string) -> bool) {
    var shop := new Shop(map[], map[]);
    var r1 := shop.SaveProduct(1, Product(500, 0, true, 1, ""), None, above);
    assert r1 == Done && shop.products[1].sku == "1";
    var top := map[1 := Product(500, 0, true, 1, "7")];
    shop := new Shop(top, map[]);
    assert 1 in top && forall j :: j in top ==> j == 1;
    Sku.LexLessIrreflexive("7");
    var r2 := shop.SaveProduct(2, Product(300, 0, true, 1, ""), Some(1), Sku.LexAbove);
    assert Sku.ParseInt("7") == Some(7);
    assert Sku.ToDecimal(8) == "8";
    assert r2 == Done && shop.products[2].sku == "8";
  }
}
