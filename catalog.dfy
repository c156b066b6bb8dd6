/**
 * The category page: the active products of one category, in the order the
 * `sort` query parameter selects, cut into pages of PageSize.
 */
module Catalog {
  import opened Records
  import Sku

  /** A product row as the table yields it: its key and its fields. */
  datatype Row = Row(id: ProductId, product: Product)

  datatype Ordering = DefaultOrder | ByPopularity | PriceLowHigh | PriceHighLow

  /** The `sort` query parameter; any value other than the three names keeps the default order. */
  function OrderingOf(sortBy: string): (o: Ordering)
    ensures o == ByPopularity <==> sortBy == "popularity"
    ensures o == PriceLowHigh <==> sortBy == "low-high"
    ensures o == PriceHighLow <==> sortBy == "high-low"
  {
    if sortBy == "popularity" then ByPopularity
    else if sortBy == "low-high" then PriceLowHigh
    else if sortBy == "high-low" then PriceHighLow
    else DefaultOrder
  }

  /** The sort key an ordering compares, ascending: order_by('-popularity'), ('price'), ('-price'). */
  function Key(o: Ordering, r: Row): int {
    match o
    case DefaultOrder => 0
    case ByPopularity => -r.product.popularity
    case PriceLowHigh => r.product.price
    case PriceHighLow => -r.product.price
  }

  ghost predicate SortedBy(o: Ordering, s: seq<Row>) {
    forall i, j :: 0 <= i < j < |s| ==> Key(o, s[i]) <= Key(o, s[j])
  }

  /** Puts x before the first row whose key is not smaller, so equal keys keep their order. */
  function Insert(o: Ordering, x: Row, s: seq<Row>): seq<Row> {
    if s == [] || Key(o, x) <= Key(o, s[0]) then [x] + s
    else [s[0]] + Insert(o, x, s[1..])
  }

  /** The rows in the ordering's order; rows with equal keys stay in table order. */
  function SortRows(o: Ordering, s: seq<Row>): seq<Row> {
    if s == [] then [] else Insert(o, s[0], SortRows(o, s[1..]))
  }

  lemma {:induction false} InsertPermutes(o: Ordering, x: Row, s: seq<Row>)
    ensures multiset(Insert(o, x, s)) == multiset([x] + s)
  {
    if s != [] && Key(o, x) > Key(o, s[0]) {
      InsertPermutes(o, x, s[1..]);
      assert s == [s[0]] + s[1..];
    }
  }

  lemma {:induction false} InsertSorted(o: Ordering, x: Row, s: seq<Row>)
    requires SortedBy(o, s)
    ensures SortedBy(o, Insert(o, x, s))
  {
    if s != [] && Key(o, x) > Key(o, s[0]) {
      var rest := s[1..];
      assert SortedBy(o, rest) by {
        forall i, j | 0 <= i < j < |rest| ensures Key(o, rest[i]) <= Key(o, rest[j]) {
          assert rest[i] == s[i + 1] && rest[j] == s[j + 1];
        }
      }
      InsertSorted(o, x, rest);
      InsertPermutes(o, x, rest);
      var t := Insert(o, x, rest);
      forall k | 0 <= k < |t| ensures Key(o, s[0]) <= Key(o, t[k]) {
        assert t[k] in multiset([x] + rest);
        if t[k] != x {
          assert t[k] in rest;
          var j :| 0 <= j < |rest| && rest[j] == t[k];
          assert s[j + 1] == t[k];
        }
      }
      var r := [s[0]] + t;
      forall i, j | 0 <= i < j < |r| ensures Key(o, r[i]) <= Key(o, r[j]) {
        assert r[j] == t[j - 1];
        if i > 0 { assert r[i] == t[i - 1]; }
      }
    }
  }

  /** Sorting yields a sorted permutation of its input. */
  lemma {:induction false} SortRowsCorrect(o: Ordering, s: seq<Row>)
    ensures SortedBy(o, SortRows(o, s))
    ensures multiset(SortRows(o, s)) == multiset(s)
  {
    if s != [] {
      SortRowsCorrect(o, s[1..]);
      InsertSorted(o, s[0], SortRows(o, s[1..]));
      InsertPermutes(o, s[0], SortRows(o, s[1..]));
      assert s == [s[0]] + s[1..];
    }
  }

  /** Without an order_by the rows stay in table order. */
  lemma {:induction false} DefaultKeepsOrder(s: seq<Row>)
    ensures SortRows(DefaultOrder, s) == s
  {
    if s != [] {
      DefaultKeepsOrder(s[1..]);
      assert s == [s[0]] + s[1..];
    }
  }

  /** Product.objects.filter(is_active=True, category=c), in table order. */
  function InCategory(rows: seq<Row>, c: CategoryId): (r: seq<Row>)
    ensures forall x :: x in r <==> x in rows && x.product.active && x.product.category == c
  {
    if rows == [] then []
    else if rows[0].product.active && rows[0].product.category == c then [rows[0]] + InCategory(rows[1..], c)
    else InCategory(rows[1..], c)
  }

  /**
   * category_products before pagination: NotFound for an unknown slug,
   * otherwise the category's active products in the requested order.
   */
  function CategoryListing(categories: map<string, CategoryId>, slug: string, rows: seq<Row>, sortBy: string): (r: Result<seq<Row>>)
    ensures r.Err? <==> slug !in categories
    ensures r.Err? ==> r.error == NotFound
    ensures r.Ok? ==> |r.value| == |InCategory(rows, categories[slug])|
  {
    if slug !in categories then Err(NotFound)
    else
      var base := InCategory(rows, categories[slug]);
      SortRowsCorrect(OrderingOf(sortBy), base);
      assert |SortRows(OrderingOf(sortBy), base)| == |multiset(base)|;
      Ok(SortRows(OrderingOf(sortBy), base))
  }

  /**
   * The listing is the category's active products, each as often as in the
   * table, sorted as `sort` asks: prices ascending or descending,
   * popularity descending, or the table's order for any other value.
   */
  lemma ListingIsSortedPermutation(categories: map<string, CategoryId>, slug: string, rows: seq<Row>, sortBy: string)
    ensures CategoryListing(categories, slug, rows, sortBy).Err? <==> slug !in categories
    ensures slug in categories ==>
      var l := CategoryListing(categories, slug, rows, sortBy).value;
      var c := categories[slug];
      && multiset(l) == multiset(InCategory(rows, c))
      && (forall x :: x in l <==> x in rows && x.product.active && x.product.category == c)
      && (sortBy == "low-high" ==> forall i, j :: 0 <= i < j < |l| ==> l[i].product.price <= l[j].product.price)
      && (sortBy == "high-low" ==> forall i, j :: 0 <= i < j < |l| ==> l[i].product.price >= l[j].product.price)
      && (sortBy == "popularity" ==> forall i, j :: 0 <= i < j < |l| ==> l[i].product.popularity >= l[j].product.popularity)
      && (sortBy != "low-high" && sortBy != "high-low" && sortBy != "popularity" ==> l == InCategory(rows, c))
  {
    if slug in categories {
      var base := InCategory(rows, categories[slug]);
      var o := OrderingOf(sortBy);
      var l := SortRows(o, base);
      SortRowsCorrect(o, base);
      forall x ensures x in l <==> x in base {
        assert x in l <==> x in multiset(l);
        assert x in base <==> x in multiset(base);
      }
      if o == DefaultOrder {
        DefaultKeepsOrder(base);
      }
    }
  }

  /** No two rows share a key. */
  ghost predicate DistinctKeys(s: seq<Row>) {
    forall i, j :: 0 <= i < j < |s| ==> s[i].id != s[j].id
  }

  /** `rows` is the product table `products` read in some order: each key once, with its record. */
  ghost predicate IsTable(rows: seq<Row>, products: map<ProductId, Product>) {
    && DistinctKeys(rows)
    && (forall r :: r in rows ==> r.id in products && products[r.id] == r.product)
    && (forall id :: id in products ==> Row(id, products[id]) in rows)
  }

  lemma {:induction false} InCategoryDistinct(rows: seq<Row>, c: CategoryId)
    requires DistinctKeys(rows)
    ensures DistinctKeys(InCategory(rows, c))
  {
    if rows != [] {
      var rest := rows[1..];
      assert DistinctKeys(rest) by {
        forall i, j | 0 <= i < j < |rest| ensures rest[i].id != rest[j].id {
          assert rest[i] == rows[i + 1] && rest[j] == rows[j + 1];
        }
      }
      InCategoryDistinct(rest, c);
      var t := InCategory(rest, c);
      if rows[0].product.active && rows[0].product.category == c {
        var r := [rows[0]] + t;
        forall i, j | 0 <= i < j < |r| ensures r[i].id != r[j].id {
          assert r[j] == t[j - 1];
          if i == 0 {
            assert t[j - 1] in rest;
            var k :| 0 <= k < |rest| && rest[k] == t[j - 1];
            assert rows[k + 1] == r[j];
          } else {
            assert r[i] == t[i - 1];
          }
        }
      }
    }
  }

  /** A row occurring at two positions occurs at least twice in the multiset. */
  lemma TwiceInMultiset(s: seq<Row>, i: nat, j: nat)
    requires i < j < |s| && s[i] == s[j]
    ensures multiset(s)[s[i]] >= 2
  {
    assert s == s[..j] + s[j..];
    assert s[i] in s[..j];
    assert s[j..][0] == s[j];
  }

  /** In a sequence where a row occurs at most once, two positions hold different rows. */
  lemma NoRepeats(s: seq<Row>, i: nat, j: nat)
    requires i < j < |s| && multiset(s)[s[i]] <= 1
    ensures s[i] != s[j]
  {
    if s[i] == s[j] {
      TwiceInMultiset(s, i, j);
    }
  }

  /** Without repeated keys, no row occurs twice. */
  lemma {:induction false} DistinctKeysOnce(s: seq<Row>, x: Row)
    requires DistinctKeys(s)
    ensures multiset(s)[x] <= 1
  {
    if s != [] {
      var rest := s[1..];
      assert DistinctKeys(rest) by {
        forall i, j | 0 <= i < j < |rest| ensures rest[i].id != rest[j].id {
          assert rest[i] == s[i + 1] && rest[j] == s[j + 1];
        }
      }
      DistinctKeysOnce(rest, x);
      assert s == [s[0]] + rest;
      if s[0] == x {
        assert x !in rest by {
          forall k | 0 <= k < |rest| ensures rest[k] != x {
            assert rest[k] == s[k + 1];
          }
        }
      }
    }
  }

  /**
   * Read over the product table, the listing holds every active product of
   * the category once, with its current record, and nothing else.
   */
  lemma ListingOfTable(categories: map<string, CategoryId>, slug: string, rows: seq<Row>, products: map<ProductId, Product>, sortBy: string)
    requires IsTable(rows, products)
    requires slug in categories
    ensures
      var l := CategoryListing(categories, slug, rows, sortBy).value;
      var c := categories[slug];
      && (forall x :: x in l ==> x.id in products && x.product == products[x.id])
      && (forall id :: id in products && products[id].active && products[id].category == c ==> Row(id, products[id]) in l)
      && (forall x :: x in l ==> x.product.active && x.product.category == c)
      && DistinctKeys(l)
  {
    var c := categories[slug];
    var base := InCategory(rows, c);
    var l := CategoryListing(categories, slug, rows, sortBy).value;
    ListingIsSortedPermutation(categories, slug, rows, sortBy);
    InCategoryDistinct(rows, c);
    forall i, j | 0 <= i < j < |l| ensures l[i].id != l[j].id {
      DistinctKeysOnce(base, l[i]);
      NoRepeats(l, i, j);
      assert l[i] in rows && l[j] in rows;
    }
  }

  // ---------------------------------------------------------------------
  // Paginator(products, 12)
  // ---------------------------------------------------------------------

  /** Number of pages: one page even when the listing is empty. */
  function NumPages(count: nat): (n: nat)
    ensures n >= 1
    ensures (n - 1) * PageSize <= count <= n * PageSize
    ensures count > 0 ==> (n - 1) * PageSize < count
  {
    if count == 0 then 1 else (count - 1) / PageSize + 1
  }

  /**
   * Page `number` (counted from 1) of the listing: at most PageSize rows,
   * the next ones in the listing's order, and a full page unless it is the
   * last one.
   */
  function Page(listing: seq<Row>, number: nat): (p: seq<Row>)
    requires 1 <= number <= NumPages(|listing|)
    ensures |p| <= PageSize
    ensures (number - 1) * PageSize + |p| <= |listing|
    ensures forall k :: 0 <= k < |p| ==> p[k] == listing[(number - 1) * PageSize + k]
    ensures number < NumPages(|listing|) ==> |p| == PageSize
    ensures number == NumPages(|listing|) ==> (number - 1) * PageSize + |p| == |listing|
  {
    var start := (number - 1) * PageSize;
    var end := if number * PageSize < |listing| then number * PageSize else |listing|;
    listing[start..end]
  }

  /** Every row of the listing is on page i / PageSize + 1, at position i % PageSize. */
  lemma RowOnPage(listing: seq<Row>, i: nat)
    requires i < |listing|
    ensures 1 <= i / PageSize + 1 <= NumPages(|listing|)
    ensures i % PageSize < |Page(listing, i / PageSize + 1)|
    ensures Page(listing, i / PageSize + 1)[i % PageSize] == listing[i]
  {
  }

  /**
   * Paginator.get_page(page): the `page` query parameter read with int(); a
   * missing or non-numeric value gives the first page, a number outside
   * 1..NumPages gives the last page.
   */
  function PageNumber(param: Option<string>, count: nat): (n: nat)
    ensures 1 <= n <= NumPages(count)
    ensures param.None? || Sku.ParseInt(param.value).None? ==> n == 1
    ensures param.Some? && Sku.ParseInt(param.value).Some? ==>
      var v := Sku.ParseInt(param.value).value;
      n == (if 1 <= v <= NumPages(count) then v else NumPages(count))
  {
    match param
    case None => 1
    case Some(text) =>
      match Sku.ParseInt(text)
      case None => 1
      case Some(v) => if 1 <= v <= NumPages(count) then v else NumPages(count)
  }

  /** Any page value, well-formed or not, shows rows of the listing, and an empty listing shows an empty page. */
  lemma PageShowsListingRows(listing: seq<Row>, param: Option<string>)
    ensures forall x :: x in Page(listing, PageNumber(param, |listing|)) ==> x in listing
    ensures listing == [] ==> Page(listing, PageNumber(param, |listing|)) == []
  {
  }
}
