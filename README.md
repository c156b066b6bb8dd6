# A verified model of the Taffreen storefront core

This project models the request handlers at the heart of a small Django
storefront. They cover the shopping cart (add, view totals, remove,
increment, decrement), checkout (cart rows become orders), the wishlist,
newsletter subscription, the category listing with sorting and pagination,
and the admin's automatic product SKU. The shop's tables are one object,
`Store.Shop`, and each handler is a method on it that changes those tables.
The queries and computations the handlers run are pure functions in their
own modules, and the properties the storefront promises are proved about
them as lemmas.

Modules:

- `Records`: identifiers, the product, cart-row and order records, the
  error kinds, and the constants. Money is an integer count of hundredths
  (`Scale` = 100), so the fixed shipping charge is `10 * Scale`. A new cart
  row starts with quantity 1. A category page holds 12 products.
- `CartLines`: the cart table as a sequence of rows in key order, and what
  the handlers compute over it. This covers lookup by key, lookup by
  (user, product), a user's rows, the subtotal, and the orders a checkout
  creates. The loop that turns rows into orders is `CheckoutRows`. The
  table invariant `CartInvariant` says keys are distinct and below the next
  key, there is one row per (user, product), every quantity is positive and
  every row's product exists.
- `Catalog`: `category_products`. It filters by category and active flag,
  sorts as the `sort` parameter asks (a stable insertion sort), and cuts
  the result into pages the way `Paginator.get_page` does.
- `Sku`: the admin's `get_sku` and `save_model`. This includes Python's
  `int()` on text and `str()` on integers, and the orderings a text or a
  numeric `sku` column gives.
- `Store`: the `Shop` class and its handler methods.
- `Scenarios`: short request sequences against `Shop` whose outcomes
  follow from the handlers' contracts alone.

A handler's HTTP result is an `Outcome`. `Done` is the redirect or page
the handler returns normally. `Failed(NotFound)` is `get_object_or_404`'s
404. `Failed(DoesNotExist)` is an uncaught `Wishlist.DoesNotExist`.
`Failed(Conflict)` is the unique-email `IntegrityError`. `Failed(ValueError)`
is the `int()` failure in `save_model`.

Points where the handlers do less than their names suggest; the model
follows the code:

- `remove_cart`, `plus_cart` and `minus_cart` look a cart row up by key
  alone. They also act on another user's row.
- `checkout` looks the address up by key alone. It does not check that the
  address belongs to the requesting user.
- `add_to_cart` does not change popularity. Only `add_to_wishlist` raises
  it, and it does so on every call, repeats included.
- The order rows and the cart deletions of one checkout are not one
  transaction in the code. The model performs the whole checkout as one
  step, so a partial checkout cannot occur in it (see "Left out").

## Model

| member | source | states |
|---|---|---|
| Store.Shop.AddToCart | store/views.py:170-185 | Unknown product: NotFound and nothing changes. Otherwise, when the user has a row for the product, that row's quantity rises by one. When there is none, a new row with the next key and quantity 1 is appended. Either way the user's held quantity of that product rises by exactly one, every other (user, product) quantity is unchanged, and the cart invariant is kept. |
| Store.Shop.CartTotals | store/views.py:188-213 | The amount is the subtotal of the requesting user's rows only. Shipping is the fixed 10.00. The total is their sum. |
| Store.Shop.RemoveCart | store/views.py:216-222 | On a GET, the row with that key is deleted, whoever owns it; NotFound with nothing changed when no row has that key. Any other method changes nothing. The invariant is kept. |
| Store.Shop.PlusCart | store/views.py:225-231 | On a GET, the row with that key gains one; NotFound when absent; any other method changes nothing. |
| Store.Shop.MinusCart | store/views.py:234-244 | On a GET, the row with that key is deleted when its quantity is 1 and loses one otherwise, so from the states the handlers themselves produce no quantity reaches 0. NotFound when absent; any other method changes nothing. |
| Store.Shop.Checkout | store/views.py:247-273 | Unknown address key: NotFound with cart and orders unchanged. Otherwise exactly the user's rows leave the cart, the other users' rows stay in order, and one order per removed row is appended in table order. The invariant is kept. |
| CartLines.CheckoutRows | store/views.py:258-270 | The loop walks every row in key order and passes over other users' rows. At each of the user's rows, which are exactly `filter(user=user)` in the same order, it creates the order and then deletes the row. It returns exactly the other users' rows and exactly the orders `OrdersFrom` describes. |
| CartLines.CheckoutStep | store/views.py:264-270 | One loop step: the row visited sits right after the rows kept so far. Deleting it, or passing over it, gives the loop's state for one more visited row. |
| CartLines.OrdersMatchUserLines | store/views.py:264-265 | Checkout creates as many orders as the user has rows. The k-th order carries the k-th row's product and quantity, the user and the address. |
| CartLines.OrdersTotalIsSubtotal | store/views.py:261 | The sum of price times quantity over the created orders equals the user's cart subtotal, the checkout's total amount. |
| CartLines.OrdersFromPriced | store/views.py:265 | Every created order names an existing product. |
| CartLines.OrderCountIsProductCount | store/views.py:177-183 | With one row per (user, product), checkout creates exactly one order per distinct product in the user's cart. |
| CartLines.OthersLinesByUser | store/views.py:258-270 | After checkout the user has no rows left, and every other user's rows are exactly as before. |
| CartLines.OthersLinesMembers | store/views.py:270 | A row remains after checkout if and only if it belongs to another user. |
| CartLines.OthersKeepInvariant | store/views.py:270 | Deleting one user's rows keeps the cart invariant. |
| CartLines.SubtotalOfOwnLines | store/views.py:197-201 | Summing over every row while skipping other users' rows gives the same amount as summing over `Cart.objects.filter(user=user)`. |
| CartLines.SubtotalOfEmptyCart | store/views.py:198-201 | A user with no rows has amount 0, so the total is the shipping charge alone. |
| CartLines.SubtotalConcat | store/views.py:199-201 | The subtotal of two row lists placed end to end is the sum of their subtotals. |
| CartLines.SubtotalAfterIncrement | store/views.py:229 | Raising a row's quantity by one raises its owner's subtotal by the product's price and changes no other user's. |
| CartLines.SubtotalAfterDecrement | store/views.py:242 | Lowering a row's quantity by one lowers its owner's subtotal by the product's price and changes no other user's. |
| CartLines.SubtotalAfterDelete | store/views.py:220 | Deleting a row lowers its owner's subtotal by the row's amount and changes no other user's. |
| CartLines.SubtotalAfterAppend | store/views.py:183 | A new row adds its amount to its owner's subtotal only. |
| CartLines.SubtotalAfterReplace | store/views.py:180-181 | Replacing a row changes the subtotal by the difference of the old and new rows' shares. |
| CartLines.QuantityIsLineQuantity | store/views.py:177-179 | With one row per (user, product), the quantity a user holds of a product is that row's quantity, or 0 without a row. |
| CartLines.QuantityAfterReplace | store/views.py:180-181 | Replacing a row changes each held quantity by that row's difference. |
| CartLines.QuantityAfterDelete | store/views.py:240 | Deleting a row removes exactly its quantity from what its owner holds. |
| CartLines.QuantityConcat | store/views.py:183 | Held quantities add up over row lists placed end to end. |
| CartLines.IndexOfId | store/views.py:219 | Lookup by key: a found index holds that key; none is found exactly when no row has the key. |
| CartLines.LineFor | store/views.py:177-179 | Lookup by (user, product): a found index holds that pair; none is found exactly when no row has it. |
| CartLines.UserLines | store/views.py:191 | A row is among the user's rows if and only if it is in the cart and belongs to the user. |
| CartLines.ReplaceQuantityKeepsInvariant | store/views.py:180-181 | Setting a row's quantity to a positive value keeps the cart invariant. |
| CartLines.DeleteKeepsInvariant | store/views.py:220 | Deleting any row keeps the cart invariant. |
| CartLines.AppendKeepsInvariant | store/views.py:183 | Appending a row with the next key, for a (user, product) without a row, keeps the cart invariant. |
| CartLines.OrdersFromConcat | store/views.py:264-265 | The orders created from two row lists placed end to end are the two lists of orders placed end to end. |
| CartLines.OthersLinesConcat | store/views.py:270 | The rows kept from two row lists placed end to end are the two kept lists placed end to end. |
| CartLines.OrdersTotalConcat | store/views.py:261 | Order totals add up over order lists placed end to end. |
| Store.Shop.AddToWishlist | store/views.py:309-317 | Unknown product: NotFound and nothing changes. Otherwise the user's wishlist, created when absent, holds the product. Adding it again leaves the set as it was. The product's popularity rises by one on every call. |
| Store.Shop.RemoveFromWishlist | store/views.py:319-324 | NotFound for an unknown product (checked first), then DoesNotExist when the user has no wishlist. Otherwise the product leaves the set; a product not in it changes nothing. |
| Store.Shop.ViewWishlist | store/views.py:303-307 | DoesNotExist if and only if the user has no wishlist; otherwise exactly the wishlist's products. |
| Store.Shop.Subscribe | store/views.py:348-358 | A new email is stored. An email already stored gives Conflict, and the set of emails is left as it was. |
| Store.Shop.SaveProduct | store/admin.py:33-40 | The product is stored with the SKU `AssignSku` gives from its own SKU and that of the first product by descending SKU. When that SKU does not read as an integer, the save fails with ValueError and nothing is stored. |
| Sku.AssignSku | store/admin.py:33-39 | The SKU a save produces is never blank, and the only failure is ValueError. |
| Sku.SetSkuIsKept | store/admin.py:34 | A non-blank SKU is kept unchanged. |
| Sku.FirstSkuIsOne | store/admin.py:38-39 | With no products, a blank SKU becomes "1", which reads back as 1. |
| Sku.NextSkuFollowsTop | store/admin.py:36-37 | After a product whose SKU reads as v, a blank SKU becomes the canonical spelling of v + 1. After one whose SKU does not read as an integer, the save fails, and only then. |
| Sku.DecimalRoundTrip | store/admin.py:37 | `int(str(n)) == n` for every integer, and `str(n)` has no leading zeros and no sign on non-negatives. |
| Sku.NaturalDigits | store/admin.py:37 | `str(n)` of a natural number is a non-empty digit string whose value is n, with no leading zero unless n is 0. |
| Sku.NumericOrderGivesFreshSku | store/admin.py:35-37 | When the first product by descending SKU holds the numerically largest SKU, the new SKU differs from every SKU in the table. |
| Sku.LexicographicOrderCanRepeatSku | store/admin.py:35-37 | On a text column, with SKUs "9" and "10", the first product by descending SKU is the "9" one, so the new SKU is "10", which is already taken. |
| Sku.LexFirstIsMaximum | store/admin.py:35 | On a text column, the product `order_by('-sku').first()` returns holds the greatest SKU: every other SKU equals it or sorts below it. |
| Sku.LexFirstExists | store/admin.py:35-36 | Every non-empty table has a product that `order_by('-sku').first()` may return on a text column, so `SaveProduct`'s description of `top` can always be met. |
| Sku.LexLessIrreflexive | store/admin.py:35 | The text ordering of the column never puts a SKU before itself. |
| Sku.LexLessTransitive | store/admin.py:35 | The text ordering of the column is transitive. |
| Sku.LexLessTotal | store/admin.py:35 | Any two different SKUs are ordered one way or the other. |
| Sku.GetSku | store/admin.py:28-29 | The admin column shows the SKU itself when it is set and 'Not Set' when it is blank, and is never empty. |
| Catalog.OrderingOf | store/views.py:94-106 | "popularity", "low-high" and "high-low" select their orderings, each exactly for its own name. Any other value keeps the default order. |
| Catalog.InCategory | store/views.py:97 | A product row is listed if and only if it is in the table, active and in the category. |
| Catalog.CategoryListing | store/views.py:91-107 | `category_products` before paging: NotFound exactly when the slug names no category, otherwise a listing exactly as long as the category's active products. Its contents and order are pinned by the next rows. |
| Catalog.SortRowsCorrect | store/views.py:100-106 | Sorting gives rows in non-decreasing key order that are a permutation of the input. |
| Catalog.DefaultKeepsOrder | store/views.py:97 | Without an `order_by`, the rows keep the table's order. |
| Catalog.ListingIsSortedPermutation | store/views.py:91-107 | An unknown slug gives NotFound, and only then. Otherwise the listing is a permutation of the category's active products: prices non-decreasing for "low-high" and non-increasing for "high-low", popularity non-increasing for "popularity", and the table's order for any other value. |
| Catalog.ListingOfTable | store/views.py:96-97 | Read over the product table, the listing holds every active product of the category once, with its current record, and nothing else. |
| Catalog.NumPages | store/views.py:109 | There is at least one page. The number of pages is the least n with count <= 12 n: every row fits, and the last page is not empty unless the listing is. |
| Catalog.Page | store/views.py:109-111 | A page has at most 12 rows, which are the listing's rows from position 12 (n - 1) on, in order. Every page but the last is full, and the last reaches the end of the listing. |
| Catalog.PageNumber | store/views.py:110-111 | A missing or non-integer `page` gives page 1. An integer in range gives that page. An integer out of range gives the last page. The result is always a valid page. |
| Catalog.RowOnPage | store/views.py:109-111 | Every row of the listing is on exactly the page its position says, so paging loses no row. |
| Catalog.PageShowsListingRows | store/views.py:109-111 | Whatever the `page` value, the page shows only rows of the listing, and nothing when the listing is empty. |

## Left out

- Rendering, templates, flash messages, redirects' URLs, the login
  decorators and the request object are not modelled. The requesting user
  is a parameter, and a handler's result is an `Outcome`.
- Form validation is not modelled. `Checkout` and `Subscribe` model the
  POST with a valid form; the checkout page's GET branch, which only
  renders the form and the total, is covered by
  `CartLines.OrdersTotalIsSubtotal` and `Store.Shop.CartTotals`. An invalid
  subscription form changes nothing and is not modelled. A checkout POST
  with an invalid form is not modelled either: on that path the final
  render (store/views.py:284) reads `total_amount` and `cart_items`, which
  that path never assigns, so the handler raises UnboundLocalError.
- The missing-`prod_id` case of `add_to_cart` is not modelled separately.
  It is an unknown product key, so it fails with NotFound.
- Concurrency and atomicity are not modelled. The model performs each
  handler as one step. It does not model the lost update of two concurrent
  add-to-cart requests, the SKU race of concurrent saves, or a checkout
  stopped halfway by a storage error.
- Store.Shop.Valid: assumes every stored cart quantity is at least 1. The
  handlers never store less (a new row has quantity 1 and `minus_cart`
  deletes a quantity-1 row), but the admin's cart page makes `quantity`
  editable (store/admin.py:42-44) and store/models.py, which would give the
  field's validators, is not part of this model. Admin edits of the cart
  are not modelled. On a row with quantity 0, `minus_cart` would store -1,
  since it deletes only at exactly 1.
- `MultipleObjectsReturned` from `get_object_or_404(Cart, product=…, user=…)`
  is not modelled. `CartInvariant` keeps one row per (user, product), and
  every handler preserves that.
- Store.Shop.CartTotals: requires every cart row's product to exist, which
  the foreign key guarantees in the database and `Shop.Valid` guarantees in
  the model.
- Decimal prices are integers in hundredths. This assumes the price column
  has at most two decimal places. store/models.py is not part of this
  model, so the column's definition could not be consulted.
- The order status and timestamp fields and their defaults are not
  modelled, for the same reason.
- Catalog.SortRows: rows with equal keys keep table order. The database
  leaves the order of ties open, so the model fixes one admissible order.
- Sku.ParseInt: models `int()` on ASCII text only. Underscores between
  digits, non-ASCII digits and non-ASCII whitespace are not accepted,
  though Python accepts them.
- Store.Shop.SaveProduct: the product `order_by('-sku').first()` returns is
  a parameter, characterised by the column's ordering `above`. The column
  type and collation are not part of this model, so both the text order
  (`Sku.LexAbove`) and the numeric order (`Sku.NumericAbove`) are
  considered. A blank SKU is the empty string; NULL is not distinguished.
- Subscription emails compare exactly. Database collation and case rules
  are not modelled.
- The other views (home, product detail, registration, profile, addresses,
  orders list, blog, contact) and the custom admin app are outside the
  modelled core.
